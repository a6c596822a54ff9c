# UniOps control plane: verified models

A Dafny 4.11 model of the stateful components of the UniOps backend: two rate limiters, the
auth tokens and concurrent registration, asset synchronisation, Stripe subscriptions, two caches,
the alert table and the context scrubber. Code that changes state step by step is a class whose
methods are proved equal to a specification function of the old state; what the component promises
is proved about that function, over every input, every run or every interleaving.

`dafny verify dfyconfig.toml` checks the whole project.

## Files

- `Basics.dfy`, `Windows.dfy`, `Text.dfy`, `Shuffles.dfy`: options and truncation; counting times in a
  window; separators and numerals in key strings; the same elements in another order.
- `RedisCounters.dfy`: counters with a time to live, and the three fates of a Redis pipeline:
  executed, not executed, executed with its reply lost.
- `CoreLimiter.dfy`, `CoreFailover.dfy`: the deque limiter of `core/rate_limit.py`, and the Redis
  counter in front of it.
- `Endpoints.dfy`, `Middleware.dfy`, `MiddlewareKeys.dfy`, `MiddlewareIsolation.dfy`,
  `MiddlewareBudget.dfy`, `MiddlewareWindow.dfy`, `MiddlewareSharing.dfy`, `MiddlewareStages.dfy`,
  `MiddlewareVerdicts.dfy`: the three-stage limiter of `middleware/rate_limit.py`.
- `TokenStore.dfy`, `Registration.dfy`: `services/auth_service.py`.
- `Assets.dfy`, `AssetRisk.dfy`, `AssetRelations.dfy`, `AssetSync.dfy`: `services/asset_discovery_service.py`,
  reading its rows in one order; `AssetOrder.dfy`, `AssetAmbiguity.dfy`: the same, reading them in any.
- `Billing.dfy`: `services/billing_service.py`.
- `TtlCache.dfy`, `TieredCache.dfy`: `platform/base_cache.py` and `core/intelligence_cache.py`.
- `Alerts.dfy`, `Scrubber.dfy`: `services/alert_service.py` and `services/copilot_context_builder.py`.

## Conventions and hypotheses

- Time is a real number. `int()` and `//` on floats are written out as truncation and floor.
- A Redis key is gone once the clock is past its expiry, and still there at that instant. A `MULTI`
  pipeline is atomic.
- In the core limiter a call's clock reading, its Redis operation and its lock section are three
  moments, and those of all calls of all workers interleave. The one hypothesis is that each
  worker's lock is taken in nondecreasing `now`; `StaleReadingOverBudget` shows that the budget
  needs it. A middleware request asks its counters at one instant, except in MiddlewareStages, where
  its three pipelines are three moments and those of all requests interleave.
- Every (scope, identity) of the core limiter has one rule, because its buckets are keyed by that
  pair alone; the scopes in use hold no colon.
- No query of the asset synchronisation asks for an order of its rows, and the database promises
  none. The lemmas of AssetRelations and AssetSync are about runs that read the rows in one order;
  AssetOrder and AssetAmbiguity let each query return them in any. Repeated synchronisations get
  the same reports in the same order.
- A subscription row needs a tenant row (`models/subscription.py:10`): an insert without one raises.
- Tokens are random, hence issued once; row ids are new. In TokenStore and Registration the read
  and the delete of a token are two steps, and the steps of all requests interleave.

## Where code and documentation differ

- The middleware's counters are documented as sliding windows. They restart at the first hit after
  they lapse: a burst counter is a sliding window if and only if the limiter is off, its limit is at
  most 1, or another limit makes up for it (`SlidingIff`); with the default limits it is not.
  What holds is 2 * limit - 1 in any closed window, besides the requests let through because Redis
  fails (`LetThroughBound`), of which there is no bound (`DownLetsAllThrough`).
- Limits are per identity, but an identity that continues another one like an endpoint key shares
  counters with it (`SharedIffExtends`), and can be refused on its account while the endpoint limit
  is less than two budgets of an address (`ExtendedIdentityRefused`), as it is by default. An address
  is any text that a trusted proxy forwards.
- The core limiter is documented as never letting a call over budget through. Its Redis counter
  has fixed windows and its memory path counts per worker, so that N workers can admit 2 + N
  budgets in one window (`FailoverBudget`, `FailoverBudgetReached`).
- `RATE_LIMIT_PER_MINUTE = 0` is documented as a way to opt out, but becomes 60; only a negative
  value disables the limiter (`Configure`).
- `_endpoint_key` is documented as keeping three path segments and keeps four.
- Re-running a synchronisation is documented as fully idempotent (`asset_discovery_service.py:14`). It
  is, whatever order the rows come in, if and only if no lookup has two answers (`SyncAllStableIff`):
  two Kubernetes integrations with one cluster name (`OneNameTwoClusters`), or one repository name in
  GitHub and in GitLab (`OneNameTwoRepos`), can make a second run add relationships or move risks.
- Pod edges are stored pod to namespace, although the model file says that a namespace contains pods.
- `_on_checkout_completed` shadows `select` by a later import, so that its tenant query would fail
  as written; the handler is modelled as meant.
- `change_plan` answers "updated" and `cancel_subscription` "canceled" even when Stripe refused
  (`DoneMeansDoneIff`, `RefusedPlanChange`).
- A payment that arrives after the subscription was deleted makes the row active again, while its
  tenant stays on the free plan (`ActiveYetFree`).
- `_get_or_create_customer` looks up the tenant's one admin and raises when there are two
  (`billing_service.py:346`); the model does the same.
- `func.sum` over a comparison (`asset_discovery_service.py:868`) has no boolean version on
  PostgreSQL, the default database, and would raise there outside the error handling per source.
  The sums are modelled as meant, as counts.
- `IntelligenceCache` writes its second tier with a keyword its helper does not take, and deletes
  through a name that is not imported. `TieredCache` models the writes as meant, with failures
  anywhere; `AsWrittenIsPrivate` says what remains when every write fails.
- A get of the two-tier cache that overlaps a write fills its first tier with what it read before:
  it can hide the worker's own write (`OverlapHidesWrite`), and answers an overwritten value for as
  long as it took beyond the 15 minutes (`StalenessBound`, `StalenessReached`).
- Invites and reset tokens are meant to work once. They are read and deleted in two steps, so that
  two concurrent requests can both be let in (`InviteUsedTwice`, `SingleUseIffSerial`).
- A token written while Redis is down never lapses (`ExpiresIffWritten`).
- An IntegrityError on a duplicate username is reported as a duplicate e-mail
  (`LoneRequestConflict`, `ConflictMeans`).

## Model

| member | source | states |
|---|---|---|
| Windows.PacedBound | backend/app/core/rate_limit.py:110-127 | If every admission finds fewer than the limit in the window ending at it, no closed interval of that length holds more than the limit |
| CoreLimiter.MemoryLimiter.PopOlder | backend/app/core/rate_limit.py:111-112 | Popping stale heads leaves the trimmed deque of that key and all other buckets |
| CoreLimiter.MemoryLimiter.PruneStale | backend/app/core/rate_limit.py:102-107 | The loop over all keys drops hits older than an hour and the buckets this empties, and nothing else |
| CoreLimiter.MemoryLimiter.Maintain | backend/app/core/rate_limit.py:101-108 | The prune runs only when more than 600 seconds have passed since the last |
| CoreLimiter.MemoryLimiter.Check | backend/app/core/rate_limit.py:96-127 | One lock section gives the verdict and the whole new state of the specification step |
| CoreLimiter.TrimIsRecent | backend/app/core/rate_limit.py:110-112 | On a sorted deque, popping from the left keeps exactly the hits inside the window |
| CoreLimiter.StepRefines | backend/app/core/rate_limit.py:96-127 | One call answers as the limiter that never forgets, and keeps bucket and history indistinguishable from then on |
| CoreLimiter.RunRefines | backend/app/core/rate_limit.py:96-127 | So does every run over all keys, Retry-After included |
| CoreLimiter.LateCallTellsApart | backend/app/core/rate_limit.py:104-105 | For a key with a window beyond the hour that the prune keeps, some run agrees with the naive limiter up to its last call, which only the naive limiter refuses |
| CoreLimiter.RefinesNaiveIffPruneSafe | backend/app/core/rate_limit.py:96-127 | The limiter equals the naive sliding window on all runs if and only if every key has max <= 0 or a window of at most 3600 seconds |
| CoreLimiter.OthersPruned | backend/app/core/rate_limit.py:101-108 | A call leaves the bucket of another key alone, unless more than 600 seconds have passed since the last prune; then exactly the hits of the last 3600 seconds stay, and no empty bucket does |
| CoreLimiter.WindowBudget | backend/app/core/rate_limit.py:96-127 | No closed interval of a key's window holds more than max admissions, in any run over all keys, whatever windows the other keys have, if the prune is safe for the key |
| CoreLimiter.WindowBudgetIff | backend/app/core/rate_limit.py:96-127 | That budget holds in every run if and only if the key has max <= 0 or a window of at most 3600 seconds |
| CoreLimiter.StaleReadingOverBudget | backend/app/core/rate_limit.py:85-127 | When a call takes the lock after one that read the clock a second later, a closed window can hold max + 1 admissions, for every key with max >= 2 |
| CoreLimiter.AdmittedAgainIff | backend/app/core/rate_limit.py:110-117 | On an unchanged history a refused key is admitted again exactly when its oldest counted hit leaves the window |
| CoreLimiter.RetryAfterAccurate | backend/app/core/rate_limit.py:114-126 | For a key that the prune is safe for, Retry-After lies in 1..max(1, window), is within one second of the exact wait, and after it plus one second the key is admitted, if nothing of the key was admitted in between |
| CoreLimiter.NoBudget | backend/app/core/rate_limit.py:114-117 | A key with max <= 0 is refused on every call of every run, with Retry-After 0 |
| CoreFailover.Limiter.CountInRedis | backend/app/core/rate_limit.py:59-66 | INCR and EXPIRE on the bucket's key, with the verdict of the specification |
| CoreFailover.Limiter.Ask | backend/app/core/rate_limit.py:80-95 | A call takes the Redis verdict, or goes on to the lock if and only if the pipeline raised |
| CoreFailover.Limiter.Lock | backend/app/core/rate_limit.py:96-127 | The lock section is one step of the worker's deque limiter |
| CoreFailover.RedisKeyInjective | backend/app/core/rate_limit.py:59-60 | Keys of different prefixes, scopes, identities or buckets are different strings, for scopes without colon and any identity |
| CoreFailover.BucketEnd | backend/app/core/rate_limit.py:59-64 | The current bucket ends after now and at most one window later, so re-arming EXPIRE never lets its counter lapse early |
| CoreFailover.BucketNumber | backend/app/core/rate_limit.py:59 | Bucket b holds the times from b windows up to b + 1 windows |
| CoreFailover.CountSpelledOut | backend/app/core/rate_limit.py:59-66 | An executed pipeline counts one more under "rl:prefix:scope:identity:bucket", lets that lapse a window later and touches nothing else; its verdict is count <= max |
| CoreFailover.TwoBuckets | backend/app/core/rate_limit.py:59 | A closed interval as long as the window meets at most two buckets |
| CoreFailover.RedisVerdictExact | backend/app/core/rate_limit.py:49-66 | After any interleaved run of all workers, a call that Redis answers is admitted exactly when fewer than max calls of its key were counted in the current bucket |
| CoreFailover.BucketBudget | backend/app/core/rate_limit.py:49-66 | Every bucket lets at most max calls of a key through, from all workers and whatever calls fail |
| CoreFailover.MemoryPathIsARun | backend/app/core/rate_limit.py:85-127 | What each worker's memory path does in an interleaved run is a run of the deque limiter |
| CoreFailover.FailoverBudget | backend/app/core/rate_limit.py:80-127 | With Redis failing on any calls, before or after counting, and calls overlapping in any way, a closed interval of the window holds at most (2 + N) * max admissions by N workers of a key that the prune is safe for |
| CoreFailover.FailoverBudgetReached | backend/app/core/rate_limit.py:80-127 | For every number of workers one run with all locks in order reaches that bound |
| Endpoints.JoinInjective | backend/app/middleware/rate_limit.py:152-158 | Path segments can be read back from their join |
| Endpoints.SplitJoin | backend/app/middleware/rate_limit.py:152-158 | Splitting at slashes undoes joining slash-free segments |
| Endpoints.EndpointKeyExact | backend/app/middleware/rate_limit.py:145-158 | Two requests share an endpoint key exactly when upper-case method and the first four segments agree |
| Endpoints.TrailingSlash | backend/app/middleware/rate_limit.py:152 | A trailing slash does not make another endpoint |
| Endpoints.KeyOfSegments | backend/app/middleware/rate_limit.py:145-158 | The key is the method in upper case, a colon, and the first four segments of the path, whatever slashes it begins and ends with |
| Middleware.Configure | backend/app/middleware/rate_limit.py:200-221 | Zero per minute means 60, a negative value disables; an hour has sixty minutes' worth; the tenant and endpoint limits are the settings' |
| Middleware.RateLimiter.constructor | backend/app/middleware/rate_limit.py:200-221 | The limiter starts with the configuration of its settings |
| Middleware.RateLimiter.Hit | backend/app/middleware/rate_limit.py:169-189 | INCR, EXPIRE NX and TTL of one counter: new store, verdict, remaining and reset |
| Middleware.RateLimiter.Check | backend/app/middleware/rate_limit.py:223-308 | The three stages in order, stopping at the first refusal and failing open, with the whole new store and response |
| MiddlewareVerdicts.CheckSpelledOut | backend/app/middleware/rate_limit.py:223-308 | With the limiter on, Redis up and a path that is not spared: the tenant, or the address without one, is counted under its ":burst:" key for 60 seconds; over the tenant's (address's) burst limit it is refused, else counted under its ":sust:" key for 3600 seconds and likewise refused, or counted under its ":epburst:" key and the endpoint; limit, scope and remaining count of the answer, and no other key is touched |
| MiddlewareVerdicts.UncountedIff | backend/app/middleware/rate_limit.py:231-237 | With Redis up all counters are left alone, and there is no verdict, exactly on the nine listed paths, under /ws/, or with the limiter off |
| MiddlewareVerdicts.LostStillCounts | backend/app/middleware/rate_limit.py:257-301 | A burst pipeline whose reply is lost has counted, one that finds Redis down has not; either lets the request through |
| MiddlewareVerdicts.RaisedLetsThrough | backend/app/middleware/rate_limit.py:298-301 | A pipeline that raises leads to no verdict of its own stage or a later one |
| MiddlewareKeys.BurstKeyInjective | backend/app/middleware/rate_limit.py:254 | Burst keys tell identities apart |
| MiddlewareKeys.SustainedKeyInjective | backend/app/middleware/rate_limit.py:255 | Sustained keys tell identities apart |
| MiddlewareKeys.FamiliesDisjoint | backend/app/middleware/rate_limit.py:254-285 | Burst, sustained and endpoint keys never coincide |
| MiddlewareKeys.SharedIffExtends | backend/app/middleware/rate_limit.py:283-285 | Two different identities share an endpoint counter for some endpoints if and only if they have one scope and one identity is the other continued by ":60:" and an endpoint |
| MiddlewareKeys.EpKeyInjective | backend/app/middleware/rate_limit.py:283-285 | Endpoint keys tell identity and endpoint apart, for one identity or identities that do not extend each other |
| MiddlewareIsolation.CheckFrame | backend/app/middleware/rate_limit.py:257-296 | A request touches only the three keys of its own identity and endpoint |
| MiddlewareIsolation.OwnRequestSame | backend/app/middleware/rate_limit.py:257-308 | Stores that agree on an identity's counters give its request the same response and keep agreeing |
| MiddlewareIsolation.IsolationFrom | backend/app/middleware/rate_limit.py:243-308 | From any two stores that agree on an identity, what it sees of an interleaved run is the run of its requests alone |
| MiddlewareIsolation.Isolation | backend/app/middleware/rate_limit.py:243-308 | Verdicts and headers an identity gets in any interleaved run are those of the run projected to it, Redis failures included, if no other identity of the run extends it or is extended by it |
| MiddlewareSharing.ExtendedIdentityRefused | backend/app/middleware/rate_limit.py:223-308 | For every address and every endpoint limit of at least 1 and less than two budgets of an address, requests of the address that extends it all pass alone, and the last is refused after requests of the first address |
| MiddlewareBudget.OneMore | backend/app/middleware/rate_limit.py:257-308 | While no counter lapses, a request passes exactly when the tightest window has something left, and takes one of it |
| MiddlewareBudget.RemainingIsMargin | backend/app/middleware/rate_limit.py:303-308 | The remaining count of a passed request is what the tightest of the three windows has left |
| MiddlewareBudget.AdvertisedBudgetExact | backend/app/middleware/rate_limit.py:169-189 | After X-RateLimit-Remaining = r exactly the next r requests of the identity to the endpoint pass and all later ones are refused, until a counter lapses, whatever other identities do that do not extend it and are not extended by it |
| MiddlewareBudget.ResetIsTheLapse | backend/app/middleware/rate_limit.py:262-308 | A refusal names the counter that is over its limit, and its Retry-After is that counter's remaining life to the nearest second |
| MiddlewareStages.StagesAreCheck | backend/app/middleware/rate_limit.py:257-308 | The three pipelines of a request at one instant, with nothing between them, are the whole check |
| MiddlewareStages.InterleavedBudget | backend/app/middleware/rate_limit.py:257-308 | However the pipelines of concurrent requests interleave while no counter of the identity lapses: at no time have more of its requests to the endpoint passed than its tightest window had left, and once all are answered exactly that many have, or all if fewer |
| MiddlewareStages.AdvertisedBudgetInterleaved | backend/app/middleware/rate_limit.py:169-189 | After X-RateLimit-Remaining = r exactly min(n, r) of n further requests of the identity to the endpoint pass, with their pipelines interleaved in any way |
| MiddlewareWindow.HitKeeps | backend/app/middleware/rate_limit.py:179-189 | A hit keeps at most a budget in a counter's generation, and less than one in it after its first hit and in the window before it |
| MiddlewareWindow.LetThroughBound | backend/app/middleware/rate_limit.py:161-301 | In every run over all identities, of the requests in any closed interval of a counter's window at most 2 * limit - 1 are let through besides those that are exempt or on which Redis fails (for an endpoint counter, if no other identity of the run extends its identity or is extended by it) |
| MiddlewareWindow.DownLetsAllThrough | backend/app/middleware/rate_limit.py:298-301 | While Redis is down any number of requests is let through at one instant |
| MiddlewareWindow.BoundReached | backend/app/middleware/rate_limit.py:161-308 | For any positive limits, requests to different endpoints strictly inside a 60-second interval, on none of which Redis fails, reach 2 * limit - 1 for the smaller of burst and sustained limit; if the sustained limit is the larger one, Redis fails nowhere in the run |
| MiddlewareWindow.SlidingIff | backend/app/middleware/rate_limit.py:9-14 | For every configuration and identity, the burst counter is the documented sliding window in every run if and only if the limiter is off, the endpoint limit lets nothing pass, the burst limit is at most 1, or it is at least twice the sustained limit less one |
| TokenStore.Tokens.Set | backend/app/services/auth_service.py:27-33 | A write goes to Redis, and to memory exactly when Redis raised |
| TokenStore.Tokens.Get | backend/app/services/auth_service.py:35-41 | A read answers from Redis if its time to live has not run out, from memory exactly when Redis raised |
| TokenStore.Tokens.Del | backend/app/services/auth_service.py:43-48 | A delete pops memory exactly when Redis raised |
| TokenStore.Tokens.BeginRedemption | backend/app/services/auth_service.py:75-86 | The read that a redemption begins with, and what lets it in |
| TokenStore.Tokens.ForgotPassword | backend/app/services/auth_service.py:186-193 | An unknown address is ignored, for a known one a reset token is issued |
| TokenStore.Tokens.CreateInvite | backend/app/services/auth_service.py:280-290 | An invite is issued; how long it is good for is stated by Honoured |
| TokenStore.Tokens.FinishReset | backend/app/services/auth_service.py:210-219 | The rest of a reset deletes its token even for a vanished user, and changes exactly that user's password |
| TokenStore.Tokens.Logout | backend/app/services/auth_service.py:239-248 | An unexpired token is blacklisted for its truncated remaining lifetime, at least one second |
| TokenStore.Tokens.Refresh | backend/app/services/auth_service.py:167-184 | Revoked, expired or accepted |
| TokenStore.KeysApart | backend/app/services/auth_service.py:23-24 | Reset and invite keys never meet |
| TokenStore.TokensConserved | backend/app/services/auth_service.py:27-51 | Without overlapping redemptions, those let in and the stored copies never exceed the tokens issued, except for the one redemption that has yet to delete what it read, however Redis goes up and down between calls |
| TokenStore.SingleUseIffSerial | backend/app/services/auth_service.py:72-86 | In every interleaved run of clean calls a token issued once lets in at most one redemption if and only if no read finds it between the read and the delete of another |
| TokenStore.SingleUseIffClean | backend/app/services/auth_service.py:27-51 | Tokens are single-use in every run if and only if no write loses its reply after taking effect, Redis does not change state inside a redemption, and redemptions of one token do not overlap |
| TokenStore.ExpiresIffWritten | backend/app/services/auth_service.py:18-33 | A fresh token lets redemptions in only within its time to live, and with its own value, in every later run if and only if its write did not raise, or its value is empty |
| TokenStore.Honoured | backend/app/services/auth_service.py:18-41 | A token issued at t by a write that reached Redis, and neither issued again nor deleted since, lets in a redemption that reads Redis, with the value issued, exactly up to t + 3600 seconds for a reset and t + 172800 for an invite; one whose write raised lets in every redemption that finds Redis down |
| TokenStore.LogoutBound | backend/app/services/auth_service.py:239-248 | After a logout that reached Redis, and any later events, a refresh that reaches Redis is accepted at most in the last second before expiry |
| TokenStore.LogoutGapExact | backend/app/services/auth_service.py:242-246 | After a logout a token is revoked for its truncated remaining lifetime, at least a second, then accepted until it expires; that gap is empty if and only if the remaining lifetime is an integer or at most 1 |
| TokenStore.NeverLoggedOut | backend/app/services/auth_service.py:167-184 | After any events but its own logout, a token is accepted exactly until it expires |
| TokenStore.ExpiredLogout | backend/app/services/auth_service.py:239-248 | Logging out an expired token changes nothing |
| Registration.InvitedRole | backend/app/services/auth_service.py:91-95 | The role is in ROLES: a known one is kept, an alias is replaced, anything else becomes "viewer" |
| Registration.StepUnique | backend/app/services/auth_service.py:66-151 | Every database step of every interleaving keeps e-mails, usernames, slugs and ids unique, flushed rows included |
| Registration.StepPhasesOk | backend/app/services/auth_service.py:66-151 | Every step keeps each transaction's rows consistent with its request and its invite |
| Registration.StepExplained | backend/app/core/database.py:41-50 | Every committed row was there before or belongs to a request that succeeded |
| Registration.RegistrationSafe | backend/app/services/auth_service.py:66-151 | Under every interleaving with crashes anywhere: unique rows; every new user has a role in ROLES and an existing tenant, those of its invite if any; every new tenant has its admin; as many new users as successes |
| Registration.CommittedUser | backend/app/services/auth_service.py:91-151 | Under every interleaving, a request that succeeded has its user stored: as admin of its new tenant, whose slug is the first 50 characters of the username in lower case with dashes for spaces, perhaps with a suffix; or with the invite's tenant and role, "devops", "security" and "finops" replaced by their new names and unknown roles by "viewer" |
| Registration.FailsExactly | backend/app/services/auth_service.py:66-151 | Under every interleaving a request ends with an answer exactly if a move of its own met the cause: e-mail taken at the check, or e-mail or username at the insert; both the first slug and the one retry taken when tried; invite not stored; tenant gone; crash |
| Registration.ConflictMeans | backend/app/services/auth_service.py:66-151 | Under every interleaving, a request told that its e-mail is registered lost to a user with its e-mail or username whom the database still holds at the end, there before or registered by another request of the run |
| Registration.LoneRequestConflict | backend/app/services/auth_service.py:143-149 | A request without invite, alone and with its slug free, is told that its e-mail is registered exactly if its e-mail or its username is |
| Registration.LoneSlugTaken | backend/app/services/auth_service.py:99-104 | When its slug is taken, a lone request goes on with a suffixed one at once and ends as admin of that tenant |
| Registration.UnresolvedInviteFails | backend/app/services/auth_service.py:79-86 | A supplied invite that does not resolve fails the request for good and adds no row |
| Registration.InviteSingleUseIffSerial | backend/app/services/auth_service.py:72-86 | Under every interleaving with crashes anywhere, never are two requests let in by one invite if and only if no request reads it between another one's read and its delete |
| Registration.InviteUsedTwice | backend/app/services/auth_service.py:75-78 | Any two requests that the database has room for, with one invite, both end as users of its tenant when both read it before either deletes it |
| Assets.SyncKeys | backend/app/services/asset_discovery_service.py:772-829 | Keys stay unique, existing rows keep key and id, and the keys are the old ones and the reported ones |
| Assets.SyncGuards | backend/app/services/asset_discovery_service.py:781-800 | A sync leaves risk, open findings, status and integration of existing rows alone and never takes criticality back |
| Assets.SyncExisting | backend/app/services/asset_discovery_service.py:781-800 | Every row that was there is folded with all reports of its key, in place |
| Assets.SyncNew | backend/app/services/asset_discovery_service.py:801-829 | Every new row comes from the first report of its key, folded with the later ones |
| Assets.FirstReport | backend/app/services/asset_discovery_service.py:801-829 | The row of an asset reported for the first time: active, risk "none", no open findings, and the report's columns |
| Assets.NewRowStarts | backend/app/services/asset_discovery_service.py:801-829 | After a whole sync a new row is still active, without risk and findings, and of the integration that reported it first |
| Assets.LastTruthyWins | backend/app/services/asset_discovery_service.py:785-794 | In every optional text column the last truthy value reported stays, else the old one |
| Assets.LastFilledWins | backend/app/services/asset_discovery_service.py:784-794 | The last non-empty environment, tags and meta reported stay, else the old ones |
| Assets.LastScanWins | backend/app/services/asset_discovery_service.py:796-799 | The last scan time reported stays; critical if ever reported or already there |
| Assets.LastSyncStays | backend/app/services/asset_discovery_service.py:795 | A row that was there carries the time of its last report |
| Assets.NameIsLast | backend/app/services/asset_discovery_service.py:782-783 | Name and type are those of the last report |
| Assets.FoldTwice | backend/app/services/asset_discovery_service.py:781-800 | Folding the same reports again changes nothing |
| Assets.SyncIdempotent | backend/app/services/asset_discovery_service.py:755-829 | Applying a list of upserts twice, duplicates with differing values allowed, equals applying it once up to last_synced_at |
| AssetRisk.RiskIsWorstOpen | backend/app/services/asset_discovery_service.py:49-58 | The risk is the highest severity among the open findings of the repository, or "none" |
| AssetRisk.ClosedFinding | backend/app/services/asset_discovery_service.py:869-893 | Adding a resolved or suppressed finding or a patched vulnerability, for any table and repositories, changes no row |
| AssetRisk.OpenFinding | backend/app/services/asset_discovery_service.py:869-906 | Adding any other finding of the only repository that is an asset raises its open findings by one and makes its risk the worse of what it was and the severity; all other rows stay |
| AssetRisk.NoFinding | backend/app/services/asset_discovery_service.py:905-906 | Without findings there are none open and the risk is "none" |
| AssetRisk.OnlyAssetFound | backend/app/services/asset_discovery_service.py:840-861 | With one repository asset, a repository is that asset exactly if it has its name, or its clone address is the asset's address without the slashes at its end |
| AssetRisk.RecomputeRowwise | backend/app/services/asset_discovery_service.py:861-909 | The loop over repository rows acts on each asset on its own |
| AssetRisk.RateRowIsRating | backend/app/services/asset_discovery_service.py:905-909 | The last matching repository decides findings and risk, the last known scan the scan time |
| AssetRelations.UpsertEdgesStores | backend/app/services/asset_discovery_service.py:954-972 | Upserting relationships keeps them unique, keeps the stored ones and adds exactly the missing ones |
| AssetRelations.BuildEdgesTwice | backend/app/services/asset_discovery_service.py:915-952 | Inferring relationships again from the same rows in the same order adds nothing |
| AssetRelations.BuildEdgesInside | backend/app/services/asset_discovery_service.py:915-952 | Every added edge joins a pod, or a cluster of the pod's cluster name, to a namespace with the pod's cluster and namespace names, all of the tenant; where two clusters have one name, that can be the other one's |
| AssetRelations.PodConnected | backend/app/services/asset_discovery_service.py:945-952 | Every pod for which there is a namespace asset with its cluster and namespace names gets an edge "contains" to such an asset, and if there is a cluster asset of its cluster name, that namespace gets one from such a cluster |
| AssetSync.AssetService.UpsertAsset | backend/app/services/asset_discovery_service.py:755-829 | Select or insert by key, column by column, with the whole new table |
| AssetSync.AssetService.RepoTables | backend/app/services/asset_discovery_service.py:848-853 | The two lookup tables hold the last repository asset of each name and url |
| AssetSync.AssetService.RecomputeRiskLevels | backend/app/services/asset_discovery_service.py:835-909 | The loop gives the recomputed table |
| AssetSync.AssetService.RelatePod | backend/app/services/asset_discovery_service.py:945-952 | One pod's edges are upserted in order |
| AssetSync.AssetService.BuildRelationships | backend/app/services/asset_discovery_service.py:915-952 | The loop over pods upserts all inferred edges |
| AssetSync.AssetService.SyncAll | backend/app/services/asset_discovery_service.py:69-117 | Upserts, risks, relationships, in this order |
| AssetSync.SyncAllIdempotent | backend/app/services/asset_discovery_service.py:69-117 | If both runs read the rows in one order, running the whole synchronisation again on the same inputs changes no row but last_synced_at, no risk and no relationship |
| AssetAmbiguity.SyncAllStableIff | backend/app/services/asset_discovery_service.py:840-943 | Whatever the findings and stored relationships, and in whatever order the queries of both runs return their rows, a second run changes no row but last_synced_at and no relationship, if and only if no two assets answer one repository, no asset two repositories, no two namespaces one pod, and no two clusters a pod that has a namespace |
| AssetAmbiguity.OneNameTwoClusters | backend/app/services/asset_discovery_service.py:632-676 | Two Kubernetes integrations with one cluster name that report the same pod are such an input |
| AssetAmbiguity.OneNameTwoRepos | backend/app/services/asset_discovery_service.py:182-226 | So is a repository that GitHub and GitLab report under one name |
| Billing.Find | backend/app/services/billing_service.py:311-329 | A query finds no row, the one row, or several, which raises |
| Billing.BillingService.OnCheckoutCompleted | backend/app/services/billing_service.py:170-218 | Update branch, insert branch and tenant plan; the insert for an unknown tenant is rolled back |
| Billing.BillingService.OnPayment | backend/app/services/billing_service.py:246-264 | The status of the customer's one row changes, and nothing else |
| Billing.BillingService.OnSubscriptionUpdated | backend/app/services/billing_service.py:266-287 | Row fields follow the event, and row and tenant plan change together |
| Billing.BillingService.OnSubscriptionDeleted | backend/app/services/billing_service.py:289-302 | The row is canceled, the tenant goes to "free" |
| Billing.BillingService.HandleWebhook | backend/app/services/billing_service.py:157-168 | Every event type takes its own handler |
| Billing.BillingService.ServeCall | backend/app/services/billing_service.py:120-153 | Plan change, cancellation and customer creation: new state and answer |
| Billing.AnswersHonest | backend/app/services/billing_service.py:120-153 | A call that raises changes nothing; a customer that is answered is stored |
| Billing.DoneMeansDoneIff | backend/app/services/billing_service.py:120-153 | A plan change answered "updated" leaves row and tenant on the plan if and only if Stripe accepted or both were there; a cancellation answered "canceled" leaves the row so if and only if Stripe accepted or it was so |
| Billing.RefusedPlanChange | backend/app/services/billing_service.py:137-153 | A refused plan change after any checkout is answered "updated" and the old plan stays |
| Billing.WebhookReplay | backend/app/services/billing_service.py:157-302 | Handling any webhook twice in succession, in any state and at any times, is handling it once, with Stripe's second answer to a checkout's question if there was one, else with the first |
| Billing.ResubscribeRestores | backend/app/services/billing_service.py:170-216 | Checkout, deletion and the same checkout again is the first checkout; in between the tenant is free and the row canceled |
| Billing.RunConsistent | backend/app/services/billing_service.py:137-302 | Every run of webhooks and calls keeps one row per tenant, of a tenant that exists, ids with their tenant, and each plan the row's or "free" |
| Billing.BillingConsistent | backend/app/services/billing_service.py:311-367 | From free tenants without rows this holds in every reachable state, and no lookup meets two rows |
| Billing.PlansAgreeIff | backend/app/services/billing_service.py:137-302 | In every run from free tenants, tenant and row have one plan if and only if the last input that set it or took the subscription away set it, or the row's plan is "free" |
| Billing.TenantAlone | backend/app/services/billing_service.py:120-302 | In every run from free tenants, a tenant's row, column by column, and its plan are what its own ledger says, into which only the inputs that concern it are written |
| Billing.StatusIsLast | backend/app/services/billing_service.py:120-302 | In every run from free tenants, a row's status is fixed by the last input that gave it one: "active" by a checkout or payment, "past_due" by a failed payment, the event's own by an update that carries one, "canceled" by a deletion or an accepted immediate cancellation |
| Billing.AnswerByLedger | backend/app/services/billing_service.py:120-153 | What a call is answered depends on the tenant's own row: no subscription without a Stripe subscription, failures of customer creation in order |
| Billing.ActiveYetFree | backend/app/services/billing_service.py:246-302 | Checkout, deletion and a late payment leave an active row on the paid plan and a free tenant |
| TtlCache.BaseCache.Create | backend/app/platform/base_cache.py:48-53 | A time to live that is not positive is refused |
| TtlCache.BaseCache.Get | backend/app/platform/base_cache.py:77-86 | Answers an entry up to and including its expiry, and evicts it after |
| TtlCache.BaseCache.InvalidatePrefix | backend/app/platform/base_cache.py:89-101 | Removes exactly the keys with the prefix and returns their number |
| TtlCache.BaseCache.InvalidateAll | backend/app/platform/base_cache.py:103-108 | Empties the store and returns its size |
| TtlCache.StoreHoldsLatest | backend/app/platform/base_cache.py:73-108 | The store holds each key's latest uncovered put, unless it expired and was evicted |
| TtlCache.GetIsLatest | backend/app/platform/base_cache.py:73-113 | On every run with a monotonic clock get answers the latest put since the last covering invalidation, exactly while its age is at most the time to live |
| TtlCache.AlikeForever | backend/app/platform/base_cache.py:77-86 | Caches that agree on unexpired entries answer alike under all later operations |
| TieredCache.Worker.Get | backend/app/core/intelligence_cache.py:21-45 | First tier, else second tier with a refill for 15 minutes from when the answer arrives |
| TieredCache.Worker.Set | backend/app/core/intelligence_cache.py:47-65 | First tier at once, second tier when the write gets there; a failing second tier is ignored |
| TieredCache.Worker.Invalidate | backend/app/core/intelligence_cache.py:67-73 | The own first tier and the second tier lose the key |
| TieredCache.RunInv | backend/app/core/intelligence_cache.py:21-73 | In every run of overlapping calls, every cell of every tier and everything read but not yet filled in comes from a write and bounds its own age and that of its successors |
| TieredCache.StalenessBound | backend/app/core/intelligence_cache.py:21-73 | With calls overlapping in any way, if every get fills in what it read within a delay: an answer was written less than its time to live plus 15 minutes plus that delay ago, and every later overwrite or invalidation that reached Redis is younger than 15 minutes plus the delay |
| TieredCache.StalenessReached | backend/app/core/intelligence_cache.py:31-41 | Both bounds are exact: a slow get lets its worker answer an overwritten value at every moment before they are reached |
| TieredCache.WriteIsSeen | backend/app/core/intelligence_cache.py:31-65 | After a write that reached Redis, and until it is superseded, every get that reads Redis finds the written value exactly as long as the caller asked, a day if it gave no time to live or zero; a negative one is refused |
| TieredCache.WriterSeesWrite | backend/app/core/intelligence_cache.py:51-55 | The writer answers its own write for exactly 15 minutes from its first tier, with or without Redis, if no get of its own for the key fills in what it had read |
| TieredCache.OverlapHidesWrite | backend/app/core/intelligence_cache.py:31-55 | A get that had read before hides the worker's own write for 15 minutes from its fill on |
| TieredCache.AsWrittenIsPrivate | backend/app/core/intelligence_cache.py:57-73 | As written, the cache is exactly a 15-minute cache of each worker alone: it answers the worker's own last write if that is less than 15 minutes old and not invalidated by the worker since |
| Alerts.GetStats | backend/app/services/alert_service.py:91-106 | The accumulator loop over grouped rows, in any order, equals counting the tenant's alerts one by one |
| Alerts.SumIsCount | backend/app/services/alert_service.py:92-96 | Sums over a grouping are counts over the grouped entries |
| Alerts.MarkAllReadCounts | backend/app/services/alert_service.py:70-77 | Returns the previous unread count, leaves none unread, keeps every other count and other tenants' alerts |
| Alerts.MarkAllReadRows | backend/app/services/alert_service.py:70-77 | Marks exactly the tenant's alerts as read, in place |
| Alerts.ResolveAllMoves | backend/app/services/alert_service.py:79-89 | Moves exactly its row count from active to resolved and keeps the total, for one category or all |
| Alerts.ResolveAllRows | backend/app/services/alert_service.py:79-89 | Changes status and time of exactly the tenant's active alerts of the category, in place |
| Alerts.AlertTable.Update | backend/app/services/alert_service.py:58-68 | The owner check, and the new row; the first resolution time is kept |
| Alerts.AlertTable.MarkRead | backend/app/services/alert_service.py:70-77 | The bulk update keeps every resolved alert dated |
| Alerts.AlertTable.Resolve | backend/app/services/alert_service.py:79-89 | The bulk update keeps every resolved alert dated |
| Scrubber.SanitizeContext | backend/app/services/copilot_context_builder.py:154-168 | The recursion over lists and dicts terminates and gives the sanitized value |
| Scrubber.SanitizeCleans | backend/app/services/copilot_context_builder.py:154-168 | Every sensitive key at every depth holds the mask, and all shape and leaves elsewhere are kept |
| Scrubber.CleanIsUnique | backend/app/services/copilot_context_builder.py:154-168 | The result is the only value with these two properties |
| Scrubber.SanitizeFixesClean | backend/app/services/copilot_context_builder.py:154-168 | Exactly the clean values are left alone, and scrubbing is idempotent |
| Scrubber.SanitizeIffMasks | backend/app/services/copilot_context_builder.py:154-168 | The result is, at every depth, the value with "[MASKED]" under exactly the keys in which one of the five words is spelled somewhere, in any case of its letters |
| Scrubber.SecretMasked | backend/app/services/copilot_context_builder.py:159-162 | Whatever comes before and after one of the words in a key, its value is masked |

## Left out

- Clocks of different workers that differ, and time passing between computing a bucket and counting in it: one clock is read by all, and the bucket is computed at the instant Redis counts.
- `_extract_client_ip`, `_extract_tenant_id` and `_trusted_proxy_pool`: identities and tenants are parameters of a request.
- Registration is modelled on values, as a state machine over its database and Redis steps, because its promises are about interleavings; a blocked insert is a step that changes nothing.
- Redis failures and lapsing invites inside `register`: the failures and the time to live of the token store are modelled in TokenStore.
- A redemption that is abandoned between its read and its delete counts as under way for good.
- Password hashing, JWT signatures, two-factor codes, login, e-mail and notification sends.
- The provider clients of the asset synchronisation, per-source error handling, result counters and the scan-result walk of `_sync_docker_images`: a sync takes the list of reports that they yield.
- Null JSON columns: a null `tags` or `meta` is the empty map.
- Stripe calls: their answers are parameters. Checkout sessions, the portal, invoices and confirmation e-mails are not modelled.
- Concurrent billing handlers: the stated consistency is about handlers run one at a time.
- Runs of the two-tier cache and of interleaved middleware pipelines are state machines on values, because their promises are about interleavings.
- Reports of repeated synchronisations that come in another order: two reports of one key that differ would then leave another last value.
- Lower-casing beyond ASCII, and timestamps from Stripe that do not parse.
- JSON text in the second cache tier, and the serialisation hooks of the TTL cache, which are the identity.
- Alert listing, pagination and notifications.
- Machine-learning modules, schedulers, WebSockets, migrations, schemas and the front end.
