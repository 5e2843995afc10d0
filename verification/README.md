# PropOS ERP: a verified model of its protocols and its arithmetic

PropOS is a multi-tenant ERP for property developers. Most of it stores and shows records; this
project models the parts that are protocols, state machines or integer arithmetic, and proves what
they promise over every input and every run.

- **Tenant scoping** (`TenantScope`, `TenantIsolation`, `TenantPhases`). The Prisma extension rewrites
  every query on a tenant-owned model. The shared table behind it is shown to refine one private table per
  tenant, with whole calls interleaved and with their lookups and writes interleaved. The database itself
  is modelled plainly: rows by primary key, filters with AND, OR and NOT.
- **Redis concurrency** (`Redis`, `LockOwnership`, `ClaimTokens`, `VersionedCache`, `CacheExpiry`,
  `CacheStampede`, `CacheService`, `TenantQueue`, `SlotExpiry`, `LeadClaim`, `LeadLockExpiry`). Locks with
  a lifetime, the versioned read-through cache, the job slots and the lead claim. Each service is a class
  whose methods are proved against the commands they issue; beside it stands a step machine in which
  processes interleave at every command and locks and keys expire.
- **Timed limiters** (`LoginLockout`, `RateLimit`). Failure counters with exponential lockout, and the
  fixed-window request limit.
- **Session families** (`SessionFamilies`). Refresh-token rotation with reuse detection.
- **Subscriptions** (`Billing`, `BillingEffects`, `BillingLedger`, `BillingAudit`, `BillingRevival`,
  `BillingRepeats`). Plan changes, cancellation, dunning, the webhook with its deduplication, paid invoices and the analytics log.
- **Money and calendar** (`GstTax`, `GstInvoices`, `GstDrafts`, `GstNumbering`, `GstRegister`,
  `FiscalCalendar`, `ReraRules`, `ReraRuns`). GST splits and rounding, invoice series and subscription invoices, the sales
  register, fiscal years and quarters over the calendar of section 21.4.1 of ECMA-262, and the RERA caps.
- **Lead lists** (`LeadPaging`). Numbered pages and cursors over a list that changes while it is read.

`Common` and `Decimal` hold shared vocabulary and decimal numerals.

How the models are built:

- A service whose methods update state is a class with that state; its methods' contracts equate the
  new state with a specification function of the old one, or state it outright, and the lemmas are
  about those functions: what each changes column by column and what it leaves, and the invariants. Code that
  only computes is functions; its loops are methods with loops.
- Clocks, random tokens, gateway and database failures are parameters. A gateway call fails before
  anything is written; a database fault may strike before any write of a webhook handler, a start or
  a plan change.
- In a step machine a disabled step changes nothing, so a run is any sequence of steps. Redis commands
  and single SQL statements are atomic, everything between two of them may interleave.
- Conditions that the code needs but does not enforce are hypotheses, and for these a theorem says that
  the condition is the exact one: an expiry of the version key is safe exactly when it is harmless
  (`FreshAfterExpiryIff`), of a stampede lock exactly when nobody computes under it (`SingleAfterDropIff`),
  of the slot counter exactly when the tenant is idle (`CapAfterExpiryIff`), of a claim lock exactly when its
  holder has nothing left to write (`OrderlyAfterExpiryIff`); claim locks exclude each other exactly when no
  ticket is repeated while it is held (`ExclusiveIffNeverClashes`); a minute bucket keeps its limit exactly
  when its increments come before its counter lapses (`AdmitsExactlyIffOnTime`); an event is absorbed exactly
  when it is recorded (`AbsorbedIff`); session families stay single exactly when sign-ins draw no live or
  foreign one (`OneLiveSessionIff`); a page fits exactly when the database resumes behind the last row seen
  (`ResumedIff`); a tenant's calls are private exactly when they are confined (`HookRefinesPrivate`).
- Properties that fail are given with their exact condition and a run that shows it: a second active
  subscription and the return of a cancelled one (`BillingRevival`), revenue that no event reports
  (`LedgerMatchesRows`), a plan that is on no row (`PlansStayOnFile`), a repeated delivery that counts again
  (`RedeliveryIff`), stages of equal order (`OrderIndependentIff`), plans that reopening breaks
  (`ReopeningSafeIffSameCaps`).

Where the code and its comments disagree, the model follows the code:

- The extension's comment says that cross-tenant data is rejected. `updateMany` merges only the filter:
  data that names another tenant hands the rows over, and an upsert that misses its own rows sends the
  original filter. `createManyAndReturn` and `updateManyAndReturn` are named by no branch and passed on
  unscoped (line 254). `CallRefinesPrivate` says exactly when this matters.
- The cache is meant to forget a namespace when its version is bumped. The version key lives for a day from
  the last bump and reads do not renew it, so an entry stored at the end of a day without writes outlives
  it, and the version then counts up to the entry's again.
- The slot counter's 600 s are meant as a safety net for crashed jobs. EXPIRE is sent only when INCR
  returns 1, so short jobs that overlap keep one key alive, and it expires under them.
- Starting a subscription is guarded against an active or trial one, but a halted row does not count,
  and a later charge revives it.
- A quarter's dates are built with `Date.UTC`, which reads the years 0 to 99 as 1900 to 1999, so labels
  of those years name ranges of the twentieth century.
- The short form of a fiscal year drops the century, so equal prefixes a century apart share numbers.
- A start or a plan change writes its row before the tenant and reports the revenue last. If the tenant's
  update fails, the row has changed and no event says so.
- A webhook whose event row cannot be written is answered with an error and delivered again. Payment
  failures then count twice, and a payment that carries no invoice of the provider is booked twice.
- An archived lead can be edited and taken back (`isArchived` in `backend/src/modules/crm/leads/dto/lead.dto.ts`),
  so a claim that has lost its lock is not harmless on it.
- Replacing the stages of a project by an empty list is accepted, and without stages any payment is admitted.
- Stages of one project may have equal orders, since only project and code are unique
  (`backend/prisma/schema.prisma`); the list then decides between them.
- A claim's lock token is the user and the millisecond, so two claims can share one. That alone is harmless:
  it takes a SET delayed past the first lock's 8000 ms before a release frees another's lock
  (`DelayedSetLosesLock`). The lead's owner columns follow the log of claims, releases and assignments
  whatever the locks do.

## Model

| member | source | states |
|---|---|---|
| `TenantIsolation.InterleavingRefinesPrivateTables` | backend/src/database/tenant-prisma.extension.ts:137-260 | for any interleaving of any number of tenants’ confined calls through the whole hook, each call taken as one step, each tenant ends with exactly the rows, and has received exactly the answers, of running its own calls alone on a private table |
| `TenantIsolation.HookRefinesPrivate` | backend/src/database/tenant-prisma.extension.ts:143-255 | a request that names a tenant acts through the whole hook on that tenant’s rows as on a private table, with the same answer and every other tenant’s rows untouched, if and only if it is confined |
| `TenantIsolation.TenantlessRefusedIff` | backend/src/database/tenant-prisma.extension.ts:157-166 | without a tenant exactly the creates, createManys and upserts with some record, at any nesting of lists, that names no tenant are refused, and leave the table alone; everything else is passed on as it is |
| `TenantIsolation.PassedThrough` | backend/src/database/tenant-prisma.extension.ts:144-151 | a bypass and a model without a tenant column leave every call as it is, whoever asks |
| `TenantIsolation.CallRefinesPrivate` | backend/src/database/tenant-prisma.extension.ts:137-260 | one call of any kind, those that the last branch passes on unscoped included, acts on the shared table as on the caller’s private table, and leaves every other tenant’s slice alone, if and only if it is confined; confinement is a condition on the arguments and the keys they hit |
| `TenantIsolation.MergedSelectsOwn` | backend/src/database/tenant-prisma.extension.ts:58-70 | the merged filter is refused exactly when it names another tenant, and otherwise selects from the shared table precisely what the bare filter selects from the tenant’s slice, for any nesting of AND, OR and NOT |
| `TenantIsolation.UpsertWrites` | backend/src/database/tenant-prisma.extension.ts:229-234 | an upsert is refused exactly when a payload names another tenant; what it writes is the stamped create and the update without its tenant column |
| `TenantIsolation.UpdateManyMovesRow` | backend/src/database/tenant-prisma.extension.ts:181-184 | a concrete updateMany whose data names another tenant is not confined: the row changes hands |
| `TenantIsolation.UpsertReachesForeignRow` | backend/src/database/tenant-prisma.extension.ts:247-251 | a concrete upsert that misses its own rows but whose filter names a foreign key changes the foreign row |
| `TenantIsolation.UpdateManyAndReturnLeaks` | backend/src/database/tenant-prisma.extension.ts:254 | a concrete updateManyAndReturn without a filter is passed on unscoped: it changes and answers with a foreign row |
| `TenantIsolation.CreateManyAndReturnPlantsRow` | backend/src/database/tenant-prisma.extension.ts:254 | a concrete createManyAndReturn that names another tenant creates a row there |
| `TenantPhases.InterleavedPhasesRefine` | backend/src/database/tenant-prisma.extension.ts:200-252 | with the ownership lookup and the write of update, delete and upsert as separate steps, and any calls of any tenant in between: each tenant ends with the rows and answers of its own lookups, writes and single statements on a private database, provided every write is confined when it is made |
| `TenantPhases.WriteRefinesPrivate` | backend/src/database/tenant-prisma.extension.ts:208-252 | one such write acts as on the private table if and only if no other tenant has taken the key found in the meantime and, for an upsert, it still aims at the same row, or at none with a key it may use |
| `TenantPhases.LookupsAgree` | backend/src/database/tenant-prisma.extension.ts:200-238 | the lookup on the shared table finds, and refuses, what the lookup by the bare filter does on the tenant’s own rows |
| `TenantPhases.UninterruptedIsScoped` | backend/src/database/tenant-prisma.extension.ts:200-252 | lookup and write with nothing in between are what the whole hook does with the call |
| `TenantPhases.ReusedKeyIsReached` | backend/src/database/tenant-prisma.extension.ts:201-212 | a key that another tenant takes between lookup and write is reached: the write changes the new owner’s row |
| `TenantScope.InjectStamps` | backend/src/database/tenant-prisma.extension.ts:40-56 | injection is refused exactly when some record at any depth names another tenant; otherwise every record ends up with the caller’s id |
| `TenantScope.RequireTenantIdOnWrite` | backend/src/database/tenant-prisma.extension.ts:72-84 | the loop accepts a payload exactly when every record at any depth names a tenant |
| `TenantScope.ScopedClient.AllOperations` | backend/src/database/tenant-prisma.extension.ts:143-255 | the hook’s branches in order: bypass and unscoped models, requests without a tenant, scoped calls; table and answer are those of the function that `HookRefinesPrivate`, `TenantlessRefusedIff` and `PassedThrough` are about |
| `TenantScope.ScopedClient.WithTenant` | backend/src/database/tenant-prisma.extension.ts:168-227 | step by step rewriting of one scoped call equals the specification function the refinement is proved about |
| `TenantScope.ScopedClient.UpsertWithTenant` | backend/src/database/tenant-prisma.extension.ts:229-252 | the same for upsert, with its ownership lookup before the write |
| `Redis.RedisService.TryLock` | backend/src/common/redis/redis.service.ts:97-106 | SET NX PX: takes the key exactly when no unexpired value is there; always “acquired” when Redis is not ready |
| `Redis.RedisService.ReleaseLock` | backend/src/common/redis/redis.service.ts:108-120 | compare and delete: the key goes only if it still holds the token |
| `Redis.RedisService.Incr` | backend/src/common/redis/redis.service.ts:70-73 | INCR on a missing or expired key starts at 1 without expiry, on a number adds one and keeps its expiry, on text fails |
| `LockOwnership.MutualExclusion` | backend/src/common/redis/redis.service.ts:97-120 | with unique tokens, in every reachable state at most one process owns the lock, a live lock has an owner, and a further attempt succeeds exactly when nobody owns it |
| `LockOwnership.LateReleaseIsHarmless` | backend/src/common/redis/redis.service.ts:108-120 | a release frees the owner’s lock and nothing else: after expiry it never removes a successor’s lock |
| `LockOwnership.HeldUntilExpiry` | backend/src/common/redis/redis.service.ts:97-120 | nothing other processes do ends an ownership before its deadline |
| `ClaimTokens.TokensAgreeIff` | backend/src/modules/lms/data-feed/lms-data-feed.service.ts:162 | two tokens of the claim service are equal exactly when they carry the same holder, a user or a user’s release, and the same millisecond |
| `ClaimTokens.UserTokensTell` | backend/src/modules/lms/data-feed/lms-data-feed.service.ts:162-235 | between two users who both claim or both release, and between a user’s own claim and release, equal tokens mean the same user, operation and millisecond; a user whose name ends in -release claims under the tokens of another’s releases |
| `ClaimTokens.ReleaseTakesLockIff` | backend/src/modules/lms/data-feed/lms-data-feed.service.ts:160-275 | a release takes the lock from another holder exactly when both tokens carry the same holder and millisecond |
| `ClaimTokens.ExclusiveIffNeverClashes` | backend/src/modules/lms/data-feed/lms-data-feed.service.ts:160-275 | throughout a run at most one call owns the lock and no release takes it from its owner, if and only if no SET takes the lock with the holder and millisecond of a ticket that is still held |
| `ClaimTokens.PromptLocksAreExclusive` | backend/src/modules/lms/data-feed/lms-data-feed.service.ts:160-275 | if every SET takes effect within 8000 ms of the minting of its token, at most one call owns the lock and no release takes it from another, though tokens repeat within a millisecond |
| `ClaimTokens.DelayedSetLosesLock` | backend/src/modules/lms/data-feed/lms-data-feed.service.ts:160-168 | a SET delayed past the first lock reuses its token, and the first holder’s release frees the second’s lock |
| `VersionedCache.ReadersSeeSettledWrites` | backend/src/common/redis/cache.service.ts:29-106 | while the version key expires only when nothing is left that a recurring version could bring back: in every interleaving of writers, readers, slow producers, lock and entry expiry, a returned value was computed from database states that include every write whose invalidation had finished when the key was built |
| `VersionedCache.FinishedWritesAreDue` | backend/src/common/redis/cache.service.ts:36-62 | a writer that has written and bumped the version is owed by every reader that builds its key afterwards, however much happens in between |
| `VersionedCache.SingleFlight` | backend/src/common/redis/cache.service.ts:73-95 | while a stampede lock expires only with nobody computing or yet to unlock under it, no two readers compute the same key under the lock |
| `VersionedCache.PollsFortyTimes` | backend/src/common/redis/cache.service.ts:81-89 | a reader that finds the lock taken and no entry looks forty times before it computes without the lock, not fewer and not more |
| `VersionedCache.FlightEndsUnlocked` | backend/src/common/redis/cache.service.ts:91-95 | however a computation under the lock ends, its lock is not its own afterwards, and one that throws leaves no entry |
| `CacheExpiry.FreshAfterExpiryIff` | backend/src/common/redis/cache.service.ts:28-62 | for every reachable kind of state: after an expiry of the version key all later runs stay fresh if and only if no entry and no open reader of a version from 1 on is left, and what is left of version 0 includes the newest settled write |
| `CacheExpiry.EntryOutlivesTheVersionKey` | backend/src/common/redis/cache.service.ts:36-44 | after one write and one finished read, with nobody slow, an expiry of the version key under the stored entry is not safe: reads do not renew the key |
| `CacheStampede.SingleAfterDropIff` | backend/src/common/redis/cache.service.ts:73-95 | from every reachable kind of state: after an expiry of a stampede lock all later runs keep to one computation a key if and only if nobody computes under that lock or has yet to unlock it |
| `CacheService.OldKeysAreUnreachable` | backend/src/common/redis/cache.service.ts:55-63 | two keys of one tenant and namespace agree only if their versions and joined parts do, so a bump leaves no way to name an old entry |
| `CacheService.KeysTell` | backend/src/common/redis/cache.service.ts:55-63 | two cache keys are equal if and only if tenant, namespace, version and every part are, an empty part counting as an underscore, for tenants and parts without a colon: no tenant meets another’s entry |
| `CacheService.VersionKeysTell` | backend/src/common/redis/cache.service.ts:25-27 | version keys are equal exactly for the same tenant and namespace, for tenants without a colon |
| `CacheService.JoinTells` | backend/src/common/redis/cache.service.ts:61 | for parts without a colon the joined text is equal exactly when the lists of parts are, an empty part counting as an underscore |
| `CacheService.VersionKeysDiffer` | backend/src/common/redis/cache.service.ts:25-27 | the version keys of a tenant’s namespaces differ |
| `CacheService.CacheService.Invalidate` | backend/src/common/redis/cache.service.ts:36-53 | each named namespace is bumped exactly once however often it is named, the others keep their version, a bumped key lives for a day, and nothing is changed under any other key |
| `CacheService.CacheService.BuildKey` | backend/src/common/redis/cache.service.ts:55-63 | the key is made of the tenant, the namespace, the version current at the call and the parts, which by `KeysTell` it tells |
| `CacheService.CacheService.GetOrSet` | backend/src/common/redis/cache.service.ts:65-106 | a hit changes nothing; the uncontended miss stores what was produced for its lifetime, under its key alone, and frees the lock also when the producer throws; a contended one takes the first value seen in forty waits or computes without the lock |
| `CacheService.CacheService.ComputeAndStore` | backend/src/common/redis/cache.service.ts:76-106 | what the producer computes is stored and returned; if it throws nothing is written |
| `TenantQueue.SlotsAreConserved` | backend/src/common/limits/tenant-queue.service.ts:136-196 | with one limit and a counter key that expires only while the tenant is idle: in every interleaving the counter equals the jobs in flight, at most max(1, concurrency) of them hold a slot, and the repair to zero never fires |
| `TenantQueue.RunSimulatesSemaphore` | backend/src/common/limits/tenant-queue.service.ts:141-167 | under the same conditions every run of the increment, check and decrement steps is a run of an atomic counting semaphore |
| `TenantQueue.DeferralIsJustified` | backend/src/common/limits/tenant-queue.service.ts:142-149 | a job is turned away exactly when taken slots and pending rollbacks reach the cap; with none of the latter, exactly when the semaphore is full |
| `TenantQueue.RollbackCanStarve` | backend/src/common/limits/tenant-queue.service.ts:146-149 | a concrete run in which a pending rollback turns a job away from a free slot |
| `SlotExpiry.CapAfterExpiryIff` | backend/src/common/limits/tenant-queue.service.ts:136-157 | from every reachable kind of state: after an expiry of the counter key all later runs keep the cap if and only if no job is in flight; EXPIRE is sent only when INCR returns 1, so overlapping short jobs reach an expiry too |
| `TenantQueue.ExpiryMidJobOverbooks` | backend/src/common/limits/tenant-queue.service.ts:143-145 | with a cap of one, a concrete run in which the counter expires under a job lets a second one in |
| `TenantQueue.UninterruptedAttempt` | backend/src/common/limits/tenant-queue.service.ts:136-151 | the interleaved steps, run without interruption, are the service’s call |
| `TenantQueue.ActiveKeysTell` | backend/src/common/limits/tenant-queue.service.ts:252-254 | slot counters of two tenants never share a key |
| `TenantQueue.TenantQueueService.TryAcquireSlot` | backend/src/common/limits/tenant-queue.service.ts:136-157 | a slot is granted exactly below the cap, and the count grows by one exactly then, in Redis and in memory; other tenants are untouched |
| `TenantQueue.TenantQueueService.ReleaseSlot` | backend/src/common/limits/tenant-queue.service.ts:159-170 | one slot less, never below zero; a counter that would go below is set to zero for ten minutes, and any other keeps its lifetime; no other tenant’s counter is touched |
| `TenantQueue.TenantQueueService.GetActiveCount` | backend/src/common/limits/tenant-queue.service.ts:172-179 | reports the count, a negative or missing one as zero |
| `TenantQueue.TenantQueueService.RunFairJob` | backend/src/common/limits/tenant-queue.service.ts:182-196 | whether the work succeeds, throws or is deferred, the count comes back to what it was |
| `LeadClaim.ClaimsAlternateWithReleases` | backend/src/modules/lms/data-feed/lms-data-feed.service.ts:160-275 | in every run, with locks expiring at any moment and the lead archived, taken back and assigned from outside: assignedToId is that of the last claim, release or assignment, claimedById that of the last claim or release, and just before a successful claim comes a release or an assignment to nobody; without assignments it is a release and the two columns agree |
| `LeadClaim.HistoryIsTheClaimLog` | backend/src/modules/lms/data-feed/lms-data-feed.service.ts:163-201 | if every expiry of a lock finds its holder with nothing left to write, claimHistory is the ordered log of the successful claims, and a non-manager’s release clears the caller’s own claim and no later one, whatever is archived, taken back or assigned meanwhile |
| `LeadLockExpiry.OrderlyAfterExpiryIff` | backend/src/modules/lms/data-feed/lms-data-feed.service.ts:160-275 | from every reachable kind of state: after an expiry of the claim lock all later runs keep history and releases in order if and only if the lock’s holder has written or given up; an archived lead is no exception, since it can be taken back |
| `LeadLockExpiry.ExpiryMidClaimLosesHistory` | backend/src/modules/lms/data-feed/lms-data-feed.service.ts:169-198 | for every free lead and every user whose lock expires between read and write there is a continuation that loses a claim from the history |
| `LeadLockExpiry.ReleaseTakesAssignedLead` | backend/src/modules/lms/data-feed/lms-data-feed.service.ts:242-266 | a claimer’s release within five minutes takes the lead from whomever it has been assigned to since |
| `LeadClaim.LmsDataFeedService.ClaimLead` | backend/src/modules/lms/data-feed/lms-data-feed.service.ts:160-226 | conflict under a held lock, not found for missing, foreign or archived leads, claimed exactly when unassigned; assignee, claimer, time and history of the claimed row, every other lead as it was, the lock free afterwards |
| `LeadClaim.LmsDataFeedService.ReleaseLead` | backend/src/modules/lms/data-feed/lms-data-feed.service.ts:228-275 | released exactly when the caller is a manager or the claimer within five minutes, forbidden otherwise; assignee, claimer and release time of the row, its history and every other lead as they were |
| `LeadClaim.LockKeysTell` | backend/src/modules/lms/data-feed/lms-data-feed.service.ts:161 | two leads never share a claim lock, for tenants without a colon |
| `LeadLockExpiry.UninterruptedClaim` | backend/src/modules/lms/data-feed/lms-data-feed.service.ts:160-226 | the steps of a claim with nothing in between are the service’s call: a free and unarchived row goes to the caller with one more entry in its history, any other stays as it is |
| `LeadLockExpiry.ClaimsNeedAFreeRow` | backend/src/modules/lms/data-feed/lms-data-feed.service.ts:185-205 | whatever its caller has read, a claim is written only over a row that is free and not archived at that moment |
| `LoginLockout.NoCounterPassesEleven` | backend/src/modules/auth/login-lockout.service.ts:33-61 | in every run of attempts no failure count passes 11 and no lock lasts beyond 1920 s, so the 3600 s cap is never reached |
| `LoginLockout.ElevenIsReached` | backend/src/modules/auth/login-lockout.service.ts:79-157 | both bounds are reached: for every user a run of eleven failures within one window ends with the count at 11 and a lock of 1920 s |
| `LoginLockout.FailuresPerHour` | backend/src/modules/auth/login-lockout.service.ts:104-157 | without a successful login in between, at most 11 failures are counted per started hour since the first |
| `LoginLockout.DelayTable` | backend/src/modules/auth/login-lockout.service.ts:79-83 | the waits up to the 11th failure sum to 1890 s and up to the 12th to 3810 s, more than the window |
| `LoginLockout.LoginLockoutService.AssertNotLocked` | backend/src/modules/auth/login-lockout.service.ts:33-50 | refuses exactly when the user or the address is locked, with the rest of that lock rounded up to whole seconds, the user’s lock first |
| `LoginLockout.LoginLockoutService.RecordFailure` | backend/src/modules/auth/login-lockout.service.ts:52-61 | counts against the user and then the address, each with its own window and lock |
| `LoginLockout.LoginLockoutService.ClearFailures` | backend/src/modules/auth/login-lockout.service.ts:63-76 | removes both counters and both locks of the attempt and nothing else |
| `LoginLockout.Cleared` | backend/src/modules/auth/login-lockout.service.ts:63-76 | after clearing exactly the entries of other users and addresses remain, unchanged |
| `LoginLockout.LoginLockoutService.GetLockTtlSeconds` | backend/src/modules/auth/login-lockout.service.ts:113-126 | the remaining time rounded up to whole seconds; a run-out lock is removed |
| `LoginLockout.LoginLockoutService.Authenticate` | backend/src/modules/auth/auth.service.ts:115-158 | a locked attempt is refused before the credentials are looked at, with the time the lock has left; a failure counts, an SSO-only tenant counts nothing, a success clears (`FailureIs`, `GoodLoginClears`) |
| `LoginLockout.GoodLoginClears` | backend/src/modules/auth/login-lockout.service.ts:63-76 | after a successful login exactly the counters and locks of other users and addresses are left, each as it was |
| `LoginLockout.CountsFromOne` | backend/src/modules/auth/login-lockout.service.ts:52-157 | and the next failure of that user or address counts one, in a window of an hour that begins with it, and locks nothing |
| `LoginLockout.FailureIs` | backend/src/modules/auth/login-lockout.service.ts:52-61 | a failure that is let through counts against its user and its address, and locks each for the time its own count asks for |
| `LoginLockout.LockTable` | backend/src/modules/auth/login-lockout.service.ts:79-83 | no lock before the fifth failure, then 30 s, doubled with every further failure up to 1920 s, and 3600 s at the twelfth |
| `LoginLockout.SharedSubjects` | backend/src/modules/auth/login-lockout.service.ts:33-61 | two attempts share a counter exactly when they have the same e-mail in whatever case, or the same address that is not empty |
| `RateLimit.BucketAdmitsUpToLimit` | backend/src/common/limits/tenant-rate-limit.guard.ts:46-61 | when no increment of a minute bucket comes after its counter has lapsed, under concurrent requests exactly the first rpm requests of that bucket are admitted |
| `RateLimit.CounterIsExact` | backend/src/common/limits/tenant-usage.service.ts:173-201 | under the same condition the counter of a bucket is the number of its requests and lapses at the computed deadline, in Redis and in memory |
| `RateLimit.AdmitsExactlyIffOnTime` | backend/src/common/limits/tenant-rate-limit.guard.ts:46-61 | a bucket admits exactly the first rpm of its requests for every rpm if and only if each of its increments comes before its counter has lapsed |
| `RateLimit.OnTimeInMemory` | backend/src/common/limits/tenant-usage.service.ts:189-201 | in memory that means: no later than 120 s after the first increment of the bucket |
| `RateLimit.TimelyIsOnTime` | backend/src/common/limits/tenant-usage.service.ts:173-201 | increments that take effect within a minute of reading the clock are on time in every bucket, in Redis and in memory |
| `RateLimit.SlidingBound` | backend/src/common/limits/tenant-rate-limit.guard.ts:46-63 | if the increments of its two buckets are on time, no span of 60 seconds sees more than twice the limit |
| `RateLimit.BoundIsTight` | backend/src/common/limits/tenant-rate-limit.guard.ts:46-63 | for every limit there is a run in which twice that many requests pass within a millisecond |
| `RateLimit.LateIncrementEscapes` | backend/src/common/limits/tenant-usage.service.ts:173-182 | an increment after the lapse restarts the count: a concrete bucket admits two requests at a limit of one |
| `RateLimit.TenantUsageService.RecordApiCall` | backend/src/common/limits/tenant-usage.service.ts:32-38 | the minute counter is returned incremented; the day counter is incremented beside it |
| `RateLimit.TenantUsageService.MemoryIncr` | backend/src/common/limits/tenant-usage.service.ts:189-201 | an expired or missing counter starts at one with a new lifetime, a current one grows and keeps its own |
| `RateLimit.TenantRateLimitGuard.CanActivate` | backend/src/common/limits/tenant-rate-limit.guard.ts:32-64 | public and tenantless requests pass uncounted; every other is counted and admitted exactly below the limit |
| `SessionFamilies.AtMostOneLiveSession` | backend/src/modules/auth/auth.service.ts:194-239 | when every sign-in draws a new family id, in every reachable state a family has one user and at most one unrevoked session |
| `SessionFamilies.OneLiveSessionIff` | backend/src/modules/auth/auth.service.ts:194-239 | throughout a run every family has one user and at most one unrevoked session, if and only if no sign-in draws the family of an unrevoked session or of another user |
| `SessionFamilies.DeadFamilyStaysDead` | backend/src/modules/auth/auth.service.ts:194-239 | a family without an unrevoked session never gets one again |
| `SessionFamilies.StaysDeadIff` | backend/src/modules/auth/auth.service.ts:194-239 | a family without an unrevoked session stays so throughout a run if and only if no sign-in draws it |
| `SessionFamilies.ReuseKillsFamily` | backend/src/modules/auth/auth.service.ts:205-212 | once a superseded token is presented, no refresh token of its family, older or newer, ever succeeds |
| `SessionFamilies.LogoutAllEndsEverySession` | backend/src/modules/auth/auth.service.ts:253-287 | after logging out everywhere or changing the password no refresh token the user had ever succeeds |
| `SessionFamilies.LogoutEndsOneSession` | backend/src/modules/auth/auth.service.ts:241-251 | logging out ends the session of that access token and leaves every other row as it is |
| `SessionFamilies.RotationIsOneTime` | backend/src/modules/auth/auth.service.ts:223-238 | a token succeeds at most once; its successor has the same user and family and thirty days |
| `SessionFamilies.RefreshSucceedsIff` | backend/src/modules/auth/auth.service.ts:194-239 | a refresh succeeds exactly for a known, unrevoked, unexpired session of an active user when two unused tokens can be signed |
| `SessionFamilies.SessionsOnlyGetRevoked` | backend/src/modules/auth/auth.service.ts:194-294 | no run drops or alters a session except to revoke it, for good |
| `SessionFamilies.EndsExactly` | backend/src/modules/auth/auth.service.ts:194-294 | the sessions a call ends are exactly: the one presented, all of its family when it was superseded or the user is inactive, the one signed out, all of the user’s; every other session is as it was |
| `SessionFamilies.AddsExactly` | backend/src/modules/auth/auth.service.ts:194-375 | nothing is added but the session of a sign-in or refresh that succeeds, under the tokens it signed, for thirty days |
| `SessionFamilies.LogoutAllLeavesOthers` | backend/src/modules/auth/auth.service.ts:253-287 | logging a user out everywhere, or changing the password, leaves every session of every other user as it was |
| `SessionFamilies.ReuseLeavesOtherFamilies` | backend/src/modules/auth/auth.service.ts:194-294 | reuse, and a refresh by an inactive user, end the family and leave every session of every other family as it was |
| `SessionFamilies.AccessTokensAreUnique` | backend/src/modules/auth/auth.service.ts:336-375 | in every run no access token belongs to two sessions |
| `SessionFamilies.AuthService.RefreshToken` | backend/src/modules/auth/auth.service.ts:194-239 | the branches of a refresh, with revocation of the family on reuse or an inactive user |
| `SessionFamilies.AuthService.IssueTokens` | backend/src/modules/auth/auth.service.ts:336-375 | a session is added under a new token, or nothing is when signing fails or a token is taken |
| `SessionFamilies.AuthService.LogoutSession` | backend/src/modules/auth/auth.service.ts:241-251 | exactly the sessions of that user with that access token are revoked |
| `SessionFamilies.AuthService.LogoutEverywhere` | backend/src/modules/auth/auth.service.ts:253-258 | exactly the sessions of that user are revoked and every other session stays as it was (`LogoutAllLeavesOthers`) |
| `SessionFamilies.AuthService.ChangeUserPassword` | backend/src/modules/auth/auth.service.ts:260-287 | accepted exactly for a valid and different password; then every session of that user is revoked and no other, and nothing otherwise |
| `SessionFamilies.AuthService.RevokeSessionFamily` | backend/src/modules/auth/auth.service.ts:289-294 | exactly the family’s sessions are revoked |
| `BillingLedger.LedgerMatchesRows` | backend/src/modules/billing/billing.service.ts:143-652 | in every run, whatever fails half-way, a tenant’s emitted MRR changes add up to the recurring revenue on its rows exactly when the changes left unreported by its half-done API calls cancel out |
| `BillingLedger.LedgerDrifts` | backend/src/modules/billing/billing.service.ts:143-652 | in every run the revenue on a tenant’s rows is the sum of its emitted MRR changes and of what its half-done API calls left unreported |
| `BillingLedger.NoDriftWhenNoneHalfDone` | backend/src/modules/billing/billing.service.ts:184-298 | nothing is left unreported unless a start or a plan change of the tenant fails between its two writes |
| `BillingLedger.HalfDoneStartDrifts` | backend/src/modules/billing/billing.service.ts:185-205 | a concrete start whose tenant update fails leaves revenue on the row that no event reports |
| `BillingLedger.SubscriptionStates` | backend/src/modules/billing/billing.service.ts:143-652 | in every run the amount is the price of plan and cycle; revenue is zero, or the amount of a monthly row, or the whole paise of a twelfth of a yearly one; PAST_DUE means one or two retries, HALTED means exhausted, TRIAL and ACTIVE mean no dunning, CANCELLED means no revenue, provider ids are unique |
| `BillingLedger.AbsorbedChangeNothing` | backend/src/modules/billing/billing.service.ts:370-475 | in every run, whatever fails: leaving out every delivery whose id an earlier one has recorded leaves the whole state as it is |
| `BillingLedger.RepeatsChangeNothing` | backend/src/modules/billing/billing.service.ts:370-475 | so when every delivery gets recorded, a run leaves the whole state as the run without later deliveries of any event id, whether processed, ignored or failed, with API calls in between |
| `BillingRepeats.AbsorbedIff` | backend/src/modules/billing/billing.service.ts:370-475 | for every state with unique provider ids and every event id: all deliveries of that id leave rows, plans, invoices and log alone if and only if the id is recorded, or no row has both a provider id and a tenant to be addressed by |
| `BillingRepeats.AbsorbedAfterIff` | backend/src/modules/billing/billing.service.ts:370-475 | the same after any run: exactly when one of the id’s deliveries could be recorded, or no row can be addressed |
| `BillingRepeats.RedeliveryIff` | backend/src/modules/billing/billing.service.ts:464-652 | a delivery processed in full but not recorded changes nothing when it is repeated if and only if it addresses no row, ends a subscription, or is a charge that does not book twice: one that has an invoice of the provider, or no payment, or whose next or second number is taken |
| `BillingRepeats.PaymentBooksTwice` | backend/src/modules/billing/billing.service.ts:537-571 | a concrete payment without an invoice of the provider is booked a second time when its delivery could not be recorded |
| `BillingLedger.RecordedIds` | backend/src/modules/billing/billing.service.ts:452-463 | in every run the recorded events are the ids of which some delivery could be recorded |
| `BillingLedger.InvoicesAreNumberedWithoutGaps` | backend/src/modules/billing/billing.service.ts:537-571 | a tenant’s paid invoices are numbered 1, 2, 3, … in order, numbers and provider invoice ids are never used twice |
| `BillingLedger.TwoActiveSubscriptions` | backend/src/modules/billing/billing.service.ts:144-155 | a concrete reachable run that revives a row beside another: two active subscriptions, since HALTED does not count as existing |
| `BillingLedger.CancelledCanComeBack` | backend/src/modules/billing/billing.service.ts:588-608 | a concrete reachable run in which a late payment failure turns a cancelled row into PAST_DUE without revenue |
| `BillingRevival.StepKeepsOneIff` | backend/src/modules/billing/billing.service.ts:143-652 | from any state with at most one trial, active or past-due row a tenant, a step keeps it so if and only if it does not revive a row beside another: an unseen activation, charge or early payment failure on a halted or cancelled row, or a plan change of a halted one |
| `BillingRevival.OneSubscriptionIff` | backend/src/modules/billing/billing.service.ts:143-652 | a run has at most one such row a tenant throughout if and only if none of its steps revives one beside another |
| `BillingRevival.StepKeepsCancelledIff` | backend/src/modules/billing/billing.service.ts:478-652 | a step keeps a cancelled row cancelled if and only if it is not an unseen activation, charge, payment failure or halt that is processed for that row |
| `BillingRevival.CancelledStaysIff` | backend/src/modules/billing/billing.service.ts:478-652 | a row cancelled at some point stays cancelled to the end of the run if and only if no such delivery is processed for it afterwards |
| `BillingLedger.UnrecordedRepeatCounts` | backend/src/modules/billing/billing.service.ts:464-472 | a delivery that could not be recorded is processed again when repeated |
| `BillingAudit.PlansStayOnFile` | backend/src/modules/billing/billing.service.ts:202-205 | throughout a run every plan that billing has put on a tenant is the plan of one of its rows, exactly when no plan change fails between its writes with the old plan on no other row |
| `BillingAudit.StepKeepsPlansIff` | backend/src/modules/billing/billing.service.ts:184-298 | a step keeps every filed plan on some row of its tenant if and only if it is not a plan change that fails between its writes with the old plan on no other row |
| `BillingAudit.FailedChangeOrphansPlan` | backend/src/modules/billing/billing.service.ts:272-288 | a concrete plan change whose tenant update fails leaves the tenant with a plan that no row has |
| `BillingAudit.ChurnIsPaired` | backend/src/modules/billing/billing.service.ts:327-343 | in every run churn is reported together with the change to zero of the same amount, and nothing else takes revenue to zero |
| `Billing.BillingService.StartSubscription` | backend/src/modules/billing/billing.service.ts:143-240 | refused exactly when a trial, active or past-due row exists; otherwise row, plan and events as specified, with the price of plan and cycle and, for a yearly row, a twelfth of it as revenue; nothing when the gateway or a unique column fails, the row alone when the tenant update fails |
| `Billing.BillingService.ChangeSubscriptionPlan` | backend/src/modules/billing/billing.service.ts:242-301 | changes the latest live row’s plan, price, revenue (a twelfth of a yearly price) and dunning, then the tenant’s plan and the log; only the row when the tenant update fails |
| `Billing.BillingService.CancelSubscription` | backend/src/modules/billing/billing.service.ts:303-346 | at period end marks the row; at once cancels it, clears its revenue and logs churn |
| `Billing.BillingService.HandleWebhook` | backend/src/modules/billing/billing.service.ts:357-476 | a known event id changes nothing; any other is routed, processed up to a possible database fault, and recorded with its result |
| `Billing.BillingService.OnSubscriptionCharged` | backend/src/modules/billing/billing.service.ts:478-581 | reactivates the row, sets the plan, books the invoice unless a unique column refuses it; stops where a write fails, and after the two writes if the amount is a fraction |
| `Billing.BillingService.OnDunning` | backend/src/modules/billing/billing.service.ts:583-609 | counts the attempt; the third, or a halt, exhausts the row |
| `Billing.BillingService.OnCancelled` | backend/src/modules/billing/billing.service.ts:611-652 | cancels a row once, clearing its revenue and logging churn |
| `Billing.LatestLive` | backend/src/modules/billing/billing.service.ts:678-688 | the most recently created live row of the tenant, none exactly when there is none |
| `Billing.PriceList` | backend/src/common/limits/plan-defaults.ts:50-91 | the price list: a year costs ten months |
| `Billing.RevenueOfPrice` | backend/src/common/limits/plan-defaults.ts:135-145 | the revenue of a monthly price is the price, of a yearly one the whole paise of a twelfth |
| `BillingEffects.StartEffect` | backend/src/modules/billing/billing.service.ts:143-240 | a start that goes through adds one row with the plan’s price and revenue, files the plan, reports the trial or activation and then the revenue, and touches nothing else; it changes nothing if a row exists or the provider id is taken |
| `BillingEffects.ChangePlanEffect` | backend/src/modules/billing/billing.service.ts:242-301 | a plan change reprices the tenant’s latest row that is neither cancelled nor expired, ends its dunning, keeps a trial a trial, and reports the old and the new revenue |
| `BillingEffects.CancelEffect` | backend/src/modules/billing/billing.service.ts:303-346 | at period end the row is only marked; at once it ends, and churn and then the change to zero are reported |
| `BillingEffects.ChargeEffect` | backend/src/modules/billing/billing.service.ts:478-581 | a charge revives the row, files its plan, reports a trial as activated, and books an invoice over the amount of the provider’s invoice, or else of the payment, or else of the row; a fraction fails it after the row and the plan |
| `BillingEffects.NumberIs` | backend/src/modules/billing/billing.service.ts:701-710 | the number after the tenant’s invoices so far, under the last six characters of the tenant id in capitals and the year |
| `BillingEffects.DunningEffect` | backend/src/modules/billing/billing.service.ts:583-609 | a payment failure counts; the third, or a halt, exhausts the row |
| `BillingEffects.EndEffect` | backend/src/modules/billing/billing.service.ts:611-652 | a cancellation or completion ends a row once, with churn and the change to zero |
| `BillingEffects.NothingElse` | backend/src/modules/billing/billing.service.ts:370-475 | deliveries of other kinds, without a subscription or without a tenant, are recorded as ignored; one about a subscription the tenant does not have is recorded as processed and has no effect |
| `GstTax.ComputeInvoiceGst` | backend/src/modules/finance/gst/tax-compute.ts:112-150 | the one-pass accumulation returns the line splits and their column sums, or the error of the first line that cannot be split |
| `GstTax.InvoiceTotals` | backend/src/modules/finance/gst/tax-compute.ts:112-150 | for any lines: totals add up, interstate has only IGST, intrastate 0 ≤ CGST − SGST ≤ lines, and the tax is within half a paise a line of the exact tax |
| `GstTax.FirstBadLine` | backend/src/modules/finance/gst/tax-compute.ts:125-137 | the error reported is that of the first line that cannot be split |
| `GstTax.UniformRate` | backend/src/modules/finance/gst/tax-compute.ts:112-150 | at one rate r over n lines, the distance of 10000·GST from r·taxable is ≤ 5000·n |
| `GstTax.UniformRateIsTight` | backend/src/modules/finance/gst/tax-compute.ts:112-150 | for every n some invoice reaches that bound |
| `GstTax.AcceptedIff` | backend/src/modules/finance/gst/tax-compute.ts:59-68 | an invoice is computed exactly when both state codes are well formed, no line is negative and every rate is a whole number |
| `GstTax.GstOnTaxable` | backend/src/modules/finance/gst/tax-compute.ts:59-68 | the nearest paise, halves up; refused exactly for a negative or fractional rate or a negative amount |
| `GstTax.SplitIsFair` | backend/src/modules/finance/gst/tax-compute.ts:73-109 | one line’s split adds up to its tax, on one side only, the odd paise going to CGST |
| `GstTax.RoundTripLoss` | backend/src/modules/finance/gst/tax-compute.ts:156-163 | backing the tax out of a gross price and charging it again loses exactly ⌈(rest − 5000)/10000⌉ paise, rest being the remainder of the division |
| `GstTax.GrossRoundTrip` | backend/src/modules/finance/gst/tax-compute.ts:156-163 | the recharged total never exceeds the gross, equals it exactly when the remainder is at most 5000, and is at most one paise short for rates up to 5001 |
| `GstTax.GrossRoundTripBeyond` | backend/src/modules/finance/gst/tax-compute.ts:156-163 | at a rate of 5003 a concrete price loses two paise |
| `GstTax.RechargedIsTheRoundTrip` | backend/src/modules/finance/gst/tax-compute.ts:156-163 | the round trip is the composition of the two functions of the code |
| `GstTax.TaxableRoundTrip` | backend/src/modules/finance/gst/tax-compute.ts:156-163 | for every rate, taxable plus tax backs out to the taxable amount or one less, one less exactly when the tax was rounded up |
| `GstTax.TdsConserves` | backend/src/modules/finance/gst/tax-compute.ts:166-181 | the deduction is the nearest paise, deduction and net add up to the payment, and the net is non-negative exactly while the rate does not overshoot by half a paise; fractional and negative rates are refused |
| `GstTax.NormalizeIsIdempotent` | backend/src/modules/finance/gst/tax-compute.ts:32-38 | a normalised state code stays as it is |
| `GstTax.SameStateIffSameNumber` | backend/src/modules/finance/gst/tax-compute.ts:32-38 | two accepted spellings normalise alike exactly when they are the same number |
| `GstNumbering.SeriesHaveNoGaps` | backend/src/modules/finance/gst/gst-invoice.service.ts:148-187 | however creations interleave between count and insert, every series is numbered 1, 2, 3, … without gaps, numbers and subscription invoices are never used twice, and amounts and labels fit |
| `GstNumbering.NumberRefusedIff` | backend/src/modules/finance/gst/gst-invoice.service.ts:380-392 | an uncontended number is refused exactly when a series of the same prefix whole centuries away is already longer |
| `GstNumbering.NumberTells` | backend/src/modules/finance/gst/gst-invoice.service.ts:388-391 | an invoice number determines its prefix, the short form of its year and its place |
| `GstNumbering.ShortFormsRepeatEachCentury` | backend/src/modules/finance/gst/gst-invoice.service.ts:389-390 | two fiscal years share their short form exactly when they are whole centuries apart |
| `GstNumbering.UninterruptedIsCreate` | backend/src/modules/finance/gst/gst-invoice.service.ts:90-187 | counting and inserting without interruption is the service’s create |
| `GstNumbering.SaasInvoiceTotal` | backend/src/modules/finance/gst/gst-invoice.service.ts:199-241 | below 2^53 paise the invoice of a paid subscription charges the amount or one paise less, above exactly when the conversion of the taxable part to a double leaves it so; it charges the amount exactly when amount·10000 mod 11800 ≤ 5000 and the conversion is exact |
| `GstNumbering.TotalWithinAPaiseIff` | backend/src/modules/finance/gst/gst-invoice.service.ts:216-238 | for every amount and every taxable part actually used, the total is the amount or one paise less exactly when that part is the exact one or a neighbour with a favourable remainder |
| `GstNumbering.HugeAmountFallsShort` | backend/src/modules/finance/gst/gst-invoice.service.ts:233-238 | at 2^54 + 1 paise the taxable part has no double and the invoice is not within a paise |
| `GstNumbering.SaasInvoiceIsCreatedOnce` | backend/src/modules/finance/gst/gst-invoice.service.ts:212-215 | asking again for a subscription invoice, at any later time, returns the same row and writes nothing |
| `GstInvoices.GstInvoiceService.Create` | backend/src/modules/finance/gst/gst-invoice.service.ts:90-193 | links, state codes, tax, label and number in the code’s order; a row is added or nothing changes |
| `GstInvoices.GstInvoiceService.NextInvoiceNumber` | backend/src/modules/finance/gst/gst-invoice.service.ts:380-392 | prefix, short year and the six-digit place after the series so far |
| `GstInvoices.GstInvoiceService.CreateFromSaasInvoice` | backend/src/modules/finance/gst/gst-invoice.service.ts:199-241 | an existing invoice is returned; otherwise one is created from the backed-out taxable amount, rounded to a double |
| `GstInvoices.MissingLink` | backend/src/modules/finance/gst/gst-invoice.service.ts:91-114 | no link is missing exactly when each one given belongs to the tenant; a missing one is reported |
| `GstInvoices.FindSaas` | backend/src/modules/finance/gst/gst-invoice.service.ts:212-214 | the first row of the tenant with that subscription invoice, none exactly when there is none |
| `GstDrafts.DraftedIff` | backend/src/modules/finance/gst/gst-invoice.service.ts:90-197 | a draft is made exactly when every link given is the tenant’s, all three state codes are well formed, and no line is negative or has a negative or fractional rate |
| `GstDrafts.DraftFollowsRequest` | backend/src/modules/finance/gst/gst-invoice.service.ts:90-197 | the row has the tenant, date and link of the request, its three states in normal form (the place of supply given, or else the buyer’s state; the supplier’s state given, or else that of the GSTIN), its prefix in capitals, its own fiscal year and number, and for each item the split between supplier and place of supply |
| `GstDrafts.CreatedIs` | backend/src/modules/finance/gst/gst-invoice.service.ts:90-197 | exactly that row is added, unless its number is taken within the tenant or its subscription invoice has a row already; otherwise nothing changes |
| `GstDrafts.SaasFollowsPayment` | backend/src/modules/finance/gst/gst-invoice.service.ts:199-245 | the invoice of a paid subscription is one line of 18 % in the series SAAS, supplied to the buyer’s state, dated now, over the taxable part of the amount |
| `GstDrafts.SixDigits` | backend/src/modules/finance/gst/gst-invoice.service.ts:380-392 | the place in a series has six digits up to 999999 and as many as it needs beyond |
| `GstDrafts.SeventhOf2025` | backend/src/modules/finance/gst/gst-invoice.service.ts:380-392 | a concrete number: the seventh invoice of the series INV in 2025-26 is INV/2526/000007 |
| `GstInvoices.ToDoubleIsNearest` | backend/src/modules/finance/gst/gst-invoice.service.ts:236-237 | `Number(taxable)` is the multiple of the spacing of doubles nearest to the amount, from half-way the even one |
| `GstRegister.QuartersAddUp` | backend/src/modules/finance/gst/gst-invoice.service.ts:328-378 | the four quarterly registers of a year report every invoice of the annual register exactly once: counts and all columns add up |
| `GstRegister.ExportReports` | backend/src/modules/finance/gst/gst-invoice.service.ts:329-378 | an export gives the column sums over the invoices of its fiscal year: between the dates if one is given, whatever the quarter says; else within the quarter’s range; else all; it is refused exactly for a malformed year or quarter that is looked at |
| `GstRegister.SelectedByItsQuarter` | backend/src/modules/finance/gst/gst-invoice.service.ts:342-345 | a labelled invoice is selected for a quarter exactly when its own labels name it |
| `FiscalCalendar.RangeHoldsItsQuarter` | backend/src/modules/finance/gst/gst-invoice.service.ts:399-423 | for every millisecond instant and every start year from 100 on, the instant lies in the range of a quarter exactly when its own fiscal year and quarter labels name it |
| `FiscalCalendar.RangesAgreeFrom99` | backend/src/modules/finance/gst/gst-invoice.service.ts:399-423 | for every positive start year, the range agrees with the labels exactly from the year 100 on, and for the last quarter of 99: Date.UTC reads smaller years as 1900 and later |
| `FiscalCalendar.QuartersTile` | backend/src/modules/finance/gst/gst-invoice.service.ts:409-422 | each quarter’s range starts a millisecond after the one before, across years too |
| `FiscalCalendar.OneQuarterPerInstant` | backend/src/modules/finance/gst/tax-compute.ts:41-57 | an instant lies in the range of its own labels and in no other |
| `FiscalCalendar.LabelOfInstant` | backend/src/modules/finance/gst/tax-compute.ts:41-48 | two instants share a label exactly when their fiscal years start in the same April |
| `FiscalCalendar.AprilOf2025` | backend/src/modules/finance/gst/tax-compute.ts:41-57 | the last millisecond of March 2025 belongs to Q4 of 2024-25 and the next one to Q1 of 2025-26 |
| `FiscalCalendar.YearFromDay` | backend/src/modules/finance/gst/tax-compute.ts:42 | the year of a day: the one whose first day is not after it and whose next year’s first day is |
| `FiscalCalendar.YearLength` | backend/src/modules/finance/gst/tax-compute.ts:42 | the closed form of day numbers gives 366 days exactly to leap years |
| `FiscalCalendar.MonthSpan` | backend/src/modules/finance/gst/tax-compute.ts:51-57 | a run of whole months is an interval of days |
| `FiscalCalendar.LastDayOfMonth` | backend/src/modules/finance/gst/gst-invoice.service.ts:418 | day 0 of a month is the last day of the month before |
| `ReraRuns.RunStaysUnderCap` | backend/src/modules/legal/rera/rera-rules.ts:61-109 | with caps that never fall from the stage in force on, stages of equal order counting as listed, every run of admitted payments and completions keeps the sum paid within the cap then in force |
| `ReraRuns.SafeIffCapsGrow` | backend/src/modules/legal/rera/rera-rules.ts:61-109 | exactly those plans are safe in every run of payments and completions, whatever has been completed before and equal orders included |
| `ReraRuns.ReopeningSafeIffSameCaps` | backend/src/modules/legal/rera/rera.service.ts:168-200 | when completed stages can also be reopened, the plans safe in every run are exactly those with one cap for all stages |
| `ReraRuns.NeverMoreThanTheConsideration` | backend/src/modules/legal/rera/rera-rules.ts:61-109 | while some stage is configured and none allows more than 100 %, no run collects more than the consideration, however stages are completed, reopened, edited and replaced |
| `ReraRuns.ConsiderationIff` | backend/src/modules/legal/rera/rera-rules.ts:61-109 | a list of stages keeps every run of payments, completions and reopenings within the consideration if and only if it is not empty and no cap is above 100 % |
| `ReraRules.ResolveApplicableStage` | backend/src/modules/legal/rera/rera-rules.ts:32-42 | sort and loop return the last completed stage, else the first, as picked directly from the unsorted list |
| `ReraRules.BestCompleted` | backend/src/modules/legal/rera/rera-rules.ts:37-40 | the completed stage of greatest order, of equal ones the last listed; none exactly when none is completed |
| `ReraRules.Earliest` | backend/src/modules/legal/rera/rera-rules.ts:36-37 | the stage of least order, of equal ones the first listed |
| `ReraRules.SortedSelection` | backend/src/modules/legal/rera/rera-rules.ts:36-41 | scanning the sorted list and scanning the unsorted one find the same stage |
| `ReraRules.SortIsPermutation` | backend/src/modules/legal/rera/rera-rules.ts:36 | the sort loses and adds nothing |
| `ReraRules.SortIsStable` | backend/src/modules/legal/rera/rera-rules.ts:36 | stages of equal order stay as listed |
| `ReraRules.OrderOfListIsIrrelevant` | backend/src/modules/legal/rera/rera-rules.ts:32-42 | with distinct orders no permutation of the list changes the applicable stage |
| `ReraRules.OrderIndependentIff` | backend/src/modules/legal/rera/rera-rules.ts:32-42 | every permutation of a list has the same applicable stage if and only if all completed stages of the greatest completed order are equal or, with none completed, all stages of the least order are |
| `ReraRules.TiesDependOnTheList` | backend/src/modules/legal/rera/rera-rules.ts:32-42 | a concrete pair of equal order where the list decides, and the cap differs tenfold |
| `ReraRules.MaxAllowedPaiseFromPct` | backend/src/modules/legal/rera/rera-rules.ts:44-56 | the nearest paise, halves up; refused exactly for a negative total or a negative or fractional percentage |
| `ReraRules.EvaluationTells` | backend/src/modules/legal/rera/rera-rules.ts:61-113 | without stages anything is allowed; otherwise exactly what stays within the rounded share of the stage in force, with the reason, the stage and the figures that are reported; refused exactly for negative amounts or percentages |
| `ReraRules.CapGrowsWithPercentage` | backend/src/modules/legal/rera/rera-rules.ts:44-56 | a greater percentage never lowers the cap, and up to 100 % the cap is within the whole |
| `LeadPaging.EveryLeadOnce` | backend/src/modules/crm/leads/leads.service.ts:82-126 | the first numbered page followed by cursors shows no lead twice and every lead that stays listed, whatever is inserted, removed, archived or moved meanwhile, the cursor row included, as long as the database resumes right behind the last row seen |
| `LeadPaging.NoRowTwice` | backend/src/modules/crm/leads/leads.service.ts:102-112 | then the rows seen along the cursors are in listing order |
| `LeadPaging.NoRowMissed` | backend/src/modules/crm/leads/leads.service.ts:102-112 | then a finished walk has seen every row behind its start that was listed throughout |
| `LeadPaging.ResumedIff` | backend/src/modules/crm/leads/leads.service.ts:101-112 | for any place at which the database may resume: the page neither repeats nor skips a row if and only if that place is right behind the last row seen |
| `LeadPaging.ListedCursorResumes` | backend/src/modules/crm/leads/leads.service.ts:103-110 | skipping one row from the cursor row on is that place whenever the row the client stands on is still listed as it was |
| `LeadPaging.StillWalk` | backend/src/common/utils/cursor-paginate.ts:17-34 | over an unchanged list the walk returns exactly the rest of the list and ends |
| `LeadPaging.PageIs` | backend/src/common/utils/cursor-paginate.ts:17-34 | a page holds the next rows, and tells of a next page, from its last row, exactly when more follow |
| `LeadPaging.NumberedPagesAreTheList` | packages/shared-utils/src/index.ts:22-47 | the pages promised by the page count are the whole list, once |
| `LeadPaging.GetPaginationParams` | packages/shared-utils/src/index.ts:22-34 | the page asked for, or 1 below that; the size asked for, cut to 1 to 100; and as many rows skipped as the pages before hold |

## Left out

- `TenantIsolation.InterleavingRefinesPrivateTables`: each call is one step; `TenantPhases.InterleavedPhasesRefine`
  is the theorem with lookups and writes apart.
- Tenant scope: nested relation writes, relation-scoped models, `select` and `include`, and unique
  columns other than the primary key; `upsert` conflicts on other columns are not modelled, and neither
  is an update that rewrites the primary key.
- Reads that order, count or aggregate are represented by the rows they range over.
- `OnPrivate` shares with the hook which requests are refused outright, so the refinement does not judge
  the wording or the order of error messages.
- Cache: payloads that do not parse, and switching between Redis and the in-process map during a run; the
  interleaving proofs are about Redis.
- `CacheService.KeysTell`: tenant ids and parts without a colon; a part with one can spell the same text as two
  parts, and then only version and joined text are told (`OldKeysAreUnreachable`).
- `TenantQueue.SlotsAreConserved`: one limit for the whole run; a limit that shrinks while jobs hold slots
  is not modelled.
- BullMQ scheduling, delays and tracing around a job.
- Lead claim: what `assign`, `update` and `create` in `leads.service.ts`, `resolveClash` in
  `lms-dashboard.service.ts` and `dismiss` in `lms-leads.service.ts` write outside the lock is modelled as
  assignments, archivings and their undoing, one column a step; their other columns, notifications and cache
  invalidation are left out.
- `LoginLockout.NoCounterPassesEleven`: attempts are taken one at a time in the in-process mode; in Redis
  mode whole-second lifetimes shift the bounds by up to a second per lock.
- `RateLimit.TenantUsageService.RecordApiCall`: the class is the in-process mode; both modes are covered by
  the concurrent model of `RateLimit.CounterIsExact` and the lemmas that follow it.
- Sessions: hashing, signing and password checks are abstract; each call is one step, so two refreshes that
  interleave between reading and writing the same session are not modelled.
- Subscriptions: dates, payment links, provider plan ids and notification text; signature checks and JSON
  parsing of webhooks; two deliveries of one event that interleave.
- `Billing.BillingService.OnSubscriptionCharged`: the GST invoice made out for the paid invoice is not part of
  the charge here; it catches its own errors, so it cannot stop one, and is modelled in `GstInvoices`.
- GST invoices: fields that are only copied, e-invoicing and cancellation, and listing.
- `GstInvoices.GstInvoiceService.Create`: upper-casing covers ASCII letters.
- `GstNumbering.SeriesHaveNoGaps`: checking for an existing subscription invoice is not a step of its own;
  the unique column decides, as in the database.
- `FiscalCalendar.RangeHoldsItsQuarter`: instants are unbounded integers, the ±8.64e15 limit of `Date` is not
  modelled; start years are numerals made of digits, other spellings that `Number` accepts are refused.
- RERA: who may complete, reopen or edit stages, and the compliance report; carpet-area checks and rupee
  conversion are floating point and have one branch each.
- `LeadPaging.EveryLeadOnce`: where the database resumes for a cursor row that has been archived, filtered out
  or moved is a parameter; only for one that is still listed as it was is it derived (`ListedCursorResumes`).
- `LeadPaging.NumberedPagesAreTheList`: numbered pages of an unchanged list only.
- CRUD modules, dashboards, documents, e-sign, AI scoring, observability, the frontends and the tenant
  deletion script.
