# Proofs about the NestJS backend

This project models the parts of the backend that carry state, arithmetic or recursion, and proves what they
promise: the rate limiter, keyset pagination and the read-through cache of `BaseService`, the QR ticket protocol,
OTP login, sessions and their cached token keys, Snowflake ids, and the codecs and canonical forms.

`dafny verify dfyconfig.toml` checks everything.

## How it is built

Redis is a map from keys to entries with an optional deadline, and one clock in milliseconds that never goes back
(`cache_service.dfy`). Services are classes over that store. Each of their methods is proved equal to a function
of the same step (`Apply`, `Scan`, `FixedWindowStep`, ...), and the theorems are about every run of those
functions: induction over the list of actions, from the empty store or from any store that meets the invariant.

| files | part of the system |
|---|---|
| `wrappers`, `cache_service` | option and result types; `CacheService` over Redis |
| `rate_limit`, `window_counts`, `fixed_window`, `sliding_window`, `token_bucket`, `token_bucket_expiry`, `policy_decisions`, `atomic_increment` | rate-limit scripts, their histories, and what the parameters of a policy promise |
| `keyset_pagination`, `cursor_boundary`, `cursor_walk`, `signed_cursor` | `listCursor`, walks over a changing table, cursor tokens |
| `filters`, `condition_builder`, `filter_text`, `page_key` | the filter of a list request and the cache key of its page |
| `cached_reads`, `crud_laws`, `base_service` | CRUD, `findById`, `listOffset` and their cache |
| `whitelist` | relation and select whitelists |
| `qr_protocol`, `qr_invariants`, `qr_theorems`, `qr_redemption`, `qr_lifecycle`, `qr_service`, `qr_controller` | QR tickets, grants, delivery codes, polling, ETags |
| `otp_login`, `otp_service` | one-time passwords |
| `glob`, `session_tokens`, `session_theorems`, `session_service` | sessions and token keys |
| `bits`, `snowflake` | Snowflake ids |
| `base64url`, `sanitize_payload`, `key_order`, `stable_json`, `stable_stringify`, `shared_objects` | codecs and canonical forms |

## Where the code does less than it seems to promise

Each point is a theorem with the exact condition, or a concrete run.

- `exchangeGrant` does not test the ticket status, so one approval can be redeemed twice: first with the delivery
  code, then with the grant (`QrTheorems.GrantAfterDelivery`). The other order is impossible. In time, an exchange
  of the grant is the second redemption exactly when the stored status is USED
  (`QrRedemption.SecondRedemptionIff`); past the deadline EXPIRED can overwrite USED, and then nothing in the store
  tells (`QrRedemption.ExpiryForgets`). The runs approve with a verifier of the ticket's challenge, as any approval
  must; `createTicket` draws one and hands out only the challenge.
- `listCursor` with a filter on the sort column loses that filter from the second page on, unless the boundary
  already implies it (`CursorBoundary.BoundaryKeepsFilterIff`). It is kept on every page of every walk exactly when it is
  closed in the walk's direction, a "from" walking up or a "to" walking down (`CursorWalk.FilterKeptIff`). The
  default date filter and the default sort column are both `createdAt` (`CursorWalk.DateRangeIsLostOnPageTwo`).
- A list request that names no status is meant to leave out removed rows. It does exactly when neither its dates nor
  its search are about the column `status`, as these replace that condition (`ConditionBuilder.RemovedLeftOutIff`).
- A page starts exactly behind the last row only if the cursor carries the sort value unchanged
  (`CursorBoundary.BoundaryIsExactIffCarried`); `createdAt` has microseconds in the database and milliseconds in a Date.
- `updateMany` writes every row before it invalidates anything; when it stops at a missing row, rows behind it stay
  stale in the cache (`CachedReads.FailedUpdateManyIff`, `CachedReads.RowBehindMissingGoesStale`).
- The cache key of `findById` does not mention the query options: a soft-deleted row that an administrator has read
  is served to everybody (`CachedReads.DeletedRowIsServed`, with the exact condition in
  `CachedReads.HitIgnoresOptions`). The key of a page does not mention `withDeleted`, with the same effect
  (`CachedReads.DeletedPageIsServed`, `CachedReads.PageHitIgnoresDeleted`).
- The cache key of a page does not show dates, because `stableStringify` makes `{}` of a `Date`. Two requests share a
  key exactly when they ask for the same once their dates are left out (`PageKeys.SameKeyIff`), so a request for
  other days is answered with the page that was asked for first (`CachedReads.OtherDaysGetFirstPage`). The cache goes
  unnoticed exactly when no two requests that differ in dates only have different pages (`CachedReads.UnnoticedIff`).
- The expiry of the token-bucket key is invisible exactly when 3600 seconds refill the whole bucket
  (`TokenBucketExpiry.ExpiryUnobservable`, `TokenBucketExpiry.ExpiryShowsOtherwise`).
- The `X-RateLimit-Remaining` of a token bucket shows what has been drawn, not what is left, and the whole burst to a
  refused request; it is right exactly when half of the bucket is left (`PolicyDecisions.BucketHeaders`).
- The sliding window counts distinct seconds, not requests: with a limit of two or more any number of requests
  passes in one second (`SlidingWindowHistories.AllAtOnceAdmitted`). At most `limit` requests in any `window` seconds
  pass exactly with a limit of at most one (`SlidingWindowHistories.LimitsRequestsIff`); by the millisecond even one is
  too many (`SlidingWindowHistories.LimitsMillisecondsIff`). With a limit above the window nothing is ever refused.
- `atomicIncrementWithLimit` is documented as a sliding window; it is a fixed one, and keeps the documented bound
  exactly with a limit of one (`AtomicIncrement.SlidesIff`, `AtomicIncrement.BurstIncrements`). With a limit below one
  its answer does not add up (`AtomicIncrement.SumNeedsPositiveLimit`).
- `logout` also drops the token keys of sessions whose id ends with the given id, without revoking them.
- An access key can outlive its session by almost an hour (`SessionTheorems.AccessAfterTheEnd`): exactly when it
  was renewed with less than its own lifetime left of the session (`SessionTheorems.AccessOutlivesSessionIff`).
- The ids of a Snowflake generator increase exactly as long as no call finds the clock behind the one before
  (`SnowflakeIds.IdsIncreaseIff`). A clock that goes back and then returns to a millisecond already used makes it
  repeat an id (`SnowflakeIds.ClockGoingBackRepeats`, with the exact condition in `SnowflakeIds.RepeatsIff`).
- A relation or column named like a member of `Object.prototype` passes in every object of every whitelist
  (`Whitelists.InheritedNamePasses`, exactly in `Whitelists.KeptIffInPaths`), because the test is the `in` operator.
- The text of `stableStringify` depends on insertion order exactly when an object has two keys that `localeCompare`
  cannot tell apart and that are no array indices (`StableJson.OrderShowsIff`). It leaves a
  value uncut exactly when no object occurs in it twice (`StableStringifier.UncutIffTree`), so that it also cuts
  where there is no cycle (`StableStringifier.SharedIsCut`).
- A failure or a newer version only starts the clean-up of a long poll; another signal before its end decides the
  answer (`QrController.WaitForChangeOrTimeout`).
- `decodeSignedCursor` ignores what follows a second dot (`SignedCursor.AcceptedIffSigned`).

## Model

| member | source | states |
|---|---|---|
| CacheStore.CacheService.Set | src/shared/services/cache/cache.service.ts:228-244 | SETEX refuses a TTL of zero and changes nothing then; otherwise the key holds the value with its deadline, a negative TTL meaning none |
| CacheStore.CacheService.FindKeysByPattern | src/shared/services/cache/cache.service.ts:483-510 | for any SCAN order: exactly the standing keys that match |
| CacheStore.CacheService.DeleteKeysByPattern | src/shared/services/cache/cache.service.ts:388-418 | for any SCAN order: exactly the matching keys are gone, and the count is the number of names SCAN returned: the number of deleted keys if it returned none twice, else more |
| RateLimit.RateLimitService.FixedWindowScript | src/rate-limit/rate-limit.service.ts:208-230 | reply and key after the plan's and the policies' fixed-window script, other keys unchanged, keys of another type an error |
| RateLimit.RateLimitService.SlidingWindowScript | src/rate-limit/rate-limit.service.ts:503-525 | reply and key after purge, count, add and expire |
| RateLimit.RateLimitService.TokenBucketScript | src/rate-limit/rate-limit.service.ts:533-561 | reply and key after refill, test, draw and the 3600 second expiry |
| RateLimit.RateLimitService.ApplyPolicyRateLimit | src/rate-limit/rate-limit.service.ts:460-637 | strategy, defaults, fallback to 100 in 60 seconds, response headers, retryAfter exactly on refusal, letting the request through on an error |
| FixedWindowHistories.FixedWindowInvariant | src/rate-limit/rate-limit.service.ts:473-496 | after any history the counter and its deadline are explained by the admitted requests alone, and any 2 * limit of those span more than a window |
| FixedWindowHistories.FixedWindowBound | src/rate-limit/rate-limit.service.ts:473-496 | any closed interval of window length admits at most 2 * limit - 1 requests |
| FixedWindowHistories.FixedWindowBoundIsTight | src/rate-limit/rate-limit.service.ts:473-496 | a history that reaches the bound, for every limit and window |
| FixedWindowHistories.CounterIsLifetimeCount | src/rate-limit/rate-limit.service.ts:473-496 | the counter equals the number of requests admitted in its lifetime, never above limit |
| FixedWindowHistories.FixedWindowRejection | src/rate-limit/rate-limit.service.ts:473-496 | a refused request finds limit admitted ones in the window that ends with it |
| SlidingWindowHistories.SlidingWindowExact | src/rate-limit/rate-limit.service.ts:503-525 | a request passes iff fewer than limit distinct seconds of the last window hold an admitted one; neither purge nor key expiry shows |
| SlidingWindowHistories.SlidingWindowBound | src/rate-limit/rate-limit.service.ts:503-525 | any windowSec consecutive seconds contain at most limit distinct seconds with an admitted request |
| SlidingWindowHistories.SlidingWindowNeverRefuses | src/rate-limit/rate-limit.service.ts:503-525 | with limit above windowSec nothing is ever refused |
| SlidingWindowHistories.SlidingWindowCanRefuse | src/rate-limit/rate-limit.service.ts:503-525 | with any other limit there is a history with a refusal |
| SlidingWindowHistories.AllAtOnceAdmitted | src/rate-limit/rate-limit.service.ts:503-525 | with a limit of two or more any number of requests in one second is admitted |
| SlidingWindowHistories.LimitsRequestsIff | src/rate-limit/rate-limit.service.ts:503-525 | at most limit admitted requests in any window of seconds, over all histories, iff limit is at most one |
| SlidingWindowHistories.LimitsMillisecondsIff | src/rate-limit/rate-limit.service.ts:503-525 | the same by milliseconds iff limit is zero |
| TokenBucketHistories.TokensAreLeastAllowance | src/rate-limit/rate-limit.service.ts:540-558 | the tokens are the minimum over all starting points of burst + refill * elapsed - admitted since |
| TokenBucketHistories.AdmittedIffEveryStretchFits | src/rate-limit/rate-limit.service.ts:540-558 | a request passes iff admitting it keeps every stretch that ends with it within burst + refill * elapsed |
| TokenBucketHistories.StretchBound | src/rate-limit/rate-limit.service.ts:540-558 | every stretch of every history admits at most burst + refill * elapsed requests |
| TokenBucketHistories.RefillComposes | src/rate-limit/rate-limit.service.ts:544-547 | two refills in a row are one |
| TokenBucketHistories.RefusalsAreUnobservable | src/rate-limit/rate-limit.service.ts:544-553 | deleting any refused requests from a history changes no other decision |
| TokenBucketExpiry.ExpiryUnobservable | src/rate-limit/rate-limit.service.ts:540-558 | with 3600 * refillPerSec >= burst the script decides like a bucket without key expiry, over every history |
| TokenBucketExpiry.ExpiryShowsOtherwise | src/rate-limit/rate-limit.service.ts:540-558 | otherwise there is a history in which it does not |
| TokenBucketExpiry.ScriptStretchBound | src/rate-limit/rate-limit.service.ts:533-561 | the burst and refill bound for the script itself |
| PolicyDecisions.NextDecision | src/rate-limit/rate-limit.service.ts:460-637 | a history grows by the decision of one call on what the key holds |
| PolicyDecisions.FixedPromise | src/rate-limit/rate-limit.service.ts:464-594 | for strategy fixedWindow with its limit and windowSec, 100 and 60 if absent, and for any other strategy with 100 and 60: at most 2 * limit - 1 requests in any closed window, and a refusal finds limit of them |
| PolicyDecisions.SlidingPromise | src/rate-limit/rate-limit.service.ts:502-531 | for strategy slidingWindow with its limit and windowSec, 100 and 60 if absent: at most limit distinct seconds of any window let a request through, and the next one passes iff there is room |
| PolicyDecisions.BucketPromise | src/rate-limit/rate-limit.service.ts:532-568 | for strategy tokenBucket with its burst and refillPerSec, 20 and 5 if absent, and a refill of the bucket within 3600 seconds: the next request passes iff every stretch that ends with it stays within burst and refill |
| PolicyDecisions.FixedAnswer | src/rate-limit/rate-limit.service.ts:473-501 | the number answered is the number of requests let through in the counter's lifetime, at most limit; the wait is the window |
| PolicyDecisions.SlidingAnswer | src/rate-limit/rate-limit.service.ts:503-531 | the number answered is the number of distinct seconds of the window with an admitted request, one more if this one passes |
| PolicyDecisions.BucketAnswer | src/rate-limit/rate-limit.service.ts:533-568 | the number answered is the number of whole tokens left, none on a refusal; the wait is a second |
| PolicyDecisions.FixedHeaders | src/rate-limit/rate-limit.service.ts:602-637 | the headers of a fixed window: its limit, what its lifetime has left of it, and the end of a window that begins now |
| PolicyDecisions.HeadersShow | src/rate-limit/rate-limit.service.ts:597-616 | any headers: the policy's limit, else its burst, else 100; what is left of it, never below zero; reset, policy and strategy |
| PolicyDecisions.BucketHeaders | src/rate-limit/rate-limit.service.ts:533-616 | what a token bucket shows as remaining is what has been drawn: right iff half of the bucket is left, and the whole burst on a refusal |
| AtomicIncrement.Counters.AtomicIncrementWithLimit | src/shared/services/cache/cache.service.ts:750-809 | answer, error and both keys after one call, all other keys unchanged |
| AtomicIncrement.IncrementIsFixedWindow | src/shared/services/cache/cache.service.ts:756-785 | with limit >= 1: never an error, current + remaining = limit, one resetTime a window, and the counter moves like the fixed-window script's |
| AtomicIncrement.IncrementBound | src/shared/services/cache/cache.service.ts:756-785 | any closed interval of window length sees at most 2 * limit - 1 increments, over any history |
| AtomicIncrement.BurstIncrements | src/shared/services/cache/cache.service.ts:756-785 | a history with 2 * limit - 1 increments within a millisecond |
| AtomicIncrement.SlidesIff | src/shared/services/cache/cache.service.ts:734-785 | at most limit increments in any interval as long as the window, over all histories, iff limit is one |
| AtomicIncrement.SumNeedsPositiveLimit | src/shared/services/cache/cache.service.ts:766-784 | with a limit below one the second answer of a window does not add up |
| KeysetPagination.Repository.FindAndCount | src/common/services/base.service.ts:331-338 | filter, sort, take: the first take matching rows in strict (sortBy, id) order |
| KeysetPagination.BaseService.ListCursor | src/common/services/base.service.ts:277-362 | the page for the decoded token, whose order wins, and the token of its last row, none for an empty page |
| KeysetPagination.BoundaryWhereIsExact | src/common/services/base.service.ts:365-398 | the rewritten filter is "in the filter and behind the boundary" when the filter names neither key column |
| CursorWalk.WalkIsOrdered | src/common/services/base.service.ts:277-398 | over a table that changes between pages, for every filter closed in the walk's direction: strict (sortBy, id) order across the whole walk, only rows that matched when read |
| CursorWalk.WalkGoesOneWay | src/common/services/base.service.ts:312-338 | by the cells of the rows: ASC goes up in (sortBy, id) and DESC down, across the whole walk, each token carrying the direction on |
| CursorWalk.FilterMeans | src/common/services/base.service.ts:365-398 | a row meets a filter iff it has every column named with a value its condition takes |
| CursorWalk.NoRowTwice | src/common/services/base.service.ts:277-398 | no row is returned twice |
| CursorWalk.PresentRowsExactlyOnce | src/common/services/base.service.ts:277-398 | a row present and matching throughout is returned exactly once by a walk that ends |
| CursorWalk.FixedTableWalk | src/common/services/base.service.ts:277-398 | on a fixed table the pages concatenate to the sorted filtered table |
| CursorWalk.FixedTableWalkEnds | src/common/services/base.service.ts:277-398 | on a fixed table a walk is at most the table plus one page long, and every page before a non-empty one is full |
| CursorBoundary.BoundaryOverwrites | src/common/services/base.service.ts:385-397 | what the rewritten filter means for any filter |
| CursorBoundary.BoundaryKeepsFilterIff | src/common/services/base.service.ts:385-397 | conditions on the key columns survive one boundary iff it implies them |
| CursorWalk.FilterKeptIff | src/common/services/base.service.ts:277-398 | no page of any walk returns a row outside the filter iff its condition on the sort column is closed in the walk's direction |
| CursorWalk.DateRangeIsLostOnPageTwo | src/common/services/base.service.ts:277-398 | a walk with a createdAt range that returns a row outside it |
| CursorBoundary.BoundaryIsExactIffCarried | src/common/services/base.service.ts:340-352 | the next page starts exactly behind the last row iff the token carries its sort value unchanged |
| SignedCursor.DecodeInvertsEncodeSigned | src/common/utils/cursor.util.ts:56-95 | decoding gives back every encoded token that JSON gives back |
| SignedCursor.AcceptedIffSigned | src/common/utils/cursor.util.ts:56-81 | with the right signature the answer is what the data say, whatever follows a second dot |
| SignedCursor.OnlySignedIsAccepted | src/common/utils/cursor.util.ts:56-81 | no cursor without the signature of its data gives a token |
| BaseServiceCrud.BaseService.CreateMany | src/common/services/base.service.ts:152-182 | rows, cache and answer after the batch |
| BaseServiceCrud.BaseService.Create | src/common/services/base.service.ts:128-144 | rows, cache and answer after a create |
| BaseServiceCrud.BaseService.Update | src/common/services/base.service.ts:400-413 | rows, cache and answer, with a missing row failing before invalidation |
| BaseServiceCrud.BaseService.UpdateMany | src/common/services/base.service.ts:421-452 | all writes first, then read back and invalidate up to the first missing row |
| BaseServiceCrud.BaseService.Remove | src/common/services/base.service.ts:454-464 | rows, cache and answer after a remove |
| BaseServiceCrud.BaseService.RemoveMany | src/common/services/base.service.ts:471-492 | rows, cache and answer after the batch |
| BaseServiceCrud.BaseService.SoftDelete | src/common/services/base.service.ts:494-505 | no effect when disabled, else the row is hidden (or deleted where the table cannot hide) and the cache invalidated |
| BaseServiceCrud.BaseService.SoftDeleteMany | src/common/services/base.service.ts:512-534 | the same for a batch |
| BaseServiceCrud.BaseService.Restore | src/common/services/base.service.ts:536-545 | the row shows again and the cache is invalidated |
| BaseServiceCrud.BaseService.FindById | src/common/services/base.service.ts:184-201 | bad request for an empty id, hit, miss, not found and cache failure, and what is stored |
| BaseServiceCrud.BaseService.ListOffset | src/common/services/base.service.ts:212-275 | bad request for a field that may not be searched; hit under the key of the request's text with background refresh, miss, and what is stored |
| BaseServiceCrud.BaseService.RefreshCacheInBackground | src/common/services/base.service.ts:930-952 | refreshes exactly when the remaining TTL is positive and within swrSec |
| BaseServiceCrud.BaseService.InvalidateCacheForEntity | src/common/services/base.service.ts:977-981 | drops the row's key and every list key, nothing else |
| CrudLaws.WritesOneRow | src/common/services/base.service.ts:128-545 | a write leaves every row but its own as it is |
| CrudLaws.SavedRow | src/common/services/base.service.ts:128-144 | a saved row holds the data merged into what was there, and is as hidden as before |
| CrudLaws.PatchedRow | src/common/services/base.service.ts:400-413 | a patch changes a row that is there, and creates none |
| CrudLaws.DeletedRow | src/common/services/base.service.ts:454-464 | a removed row is gone from the table |
| CrudLaws.DeletedRows | src/common/services/base.service.ts:471-492 | a list of removals takes exactly the listed rows from the table |
| CrudLaws.HiddenRows | src/common/services/base.service.ts:512-534 | a list of soft deletions marks exactly the listed rows deleted and keeps their data |
| CrudLaws.ShownRows | src/common/services/base.service.ts:536-545 | restorations clear exactly those marks |
| CrudLaws.SavedRows | src/common/services/base.service.ts:152-182 | every row of a new batch is stored with its own data |
| CrudLaws.EntitiesInOrder | src/common/services/base.service.ts:152-182 | a batch is answered row by row in its order |
| CrudLaws.ReadAfterWrite | src/common/services/base.service.ts:128-545 | after any write that goes through, findById answers from the row as it is now, with the cache and without |
| CrudLaws.AllRemovedNotFound | src/common/services/base.service.ts:471-492 | after removeMany none of its rows is found and every other row is as before |
| CrudLaws.RemovedIsNotFound | src/common/services/base.service.ts:454-464 | after a remove the row is not found by anybody, and is the only one missing from lists |
| CrudLaws.CreatedIsFound | src/common/services/base.service.ts:128-201 | a created row is answered and found with its data |
| CrudLaws.UpdatedIsFound | src/common/services/base.service.ts:400-413 | an update of a visible row is answered and found with the merged data; any other is refused and changes no list |
| CrudLaws.SoftDeletedIsHidden | src/common/services/base.service.ts:494-505 | a soft-deleted row is not found without withDeleted and found with it where the table can hide rows |
| CrudLaws.RestoredIsFound | src/common/services/base.service.ts:536-545 | restore undoes softDelete: found by all again, and the table as it was |
| CrudLaws.SoftDeleteDisabled | src/common/services/base.service.ts:494-545 | without soft delete neither operation does anything |
| CrudLaws.PageAfterWrite | src/common/services/base.service.ts:212-275 | a page asked for after a write is made of the rows as they are now |
| CrudLaws.ServedForTtl | src/common/services/base.service.ts:184-201 | a stored read is served for ttlSec seconds whatever happens behind the service's back, and not longer |
| CrudLaws.HitOutsideTheWindow | src/common/services/base.service.ts:930-952 | a hit before the last swrSec seconds leaves the cache as it is |
| CachedReads.WholeBatchKeepsCoherence | src/common/services/base.service.ts:400-545 | every batch that is invalidated to its end keeps the cache coherent |
| CachedReads.FailedUpdateKeepsCoherence | src/common/services/base.service.ts:400-406 | a failing update cannot be seen by readers without withDeleted |
| CachedReads.CachedRefinesUncached | src/common/services/base.service.ts:128-275 | over any run of such operations, with requests of which no two that differ in dates only have different pages, the cached service answers exactly like the one without cache |
| CachedReads.UnnoticedIff | src/common/services/base.service.ts:128-275 | all such runs from an empty cache answer like the service without cache iff no two of the requests that differ in dates only have different pages of some table |
| CachedReads.ApartWithoutDates | src/common/services/base.service.ts:238-246 | requests have this property when no two of them differ in dates only |
| CachedReads.OtherDaysGetFirstPage | src/common/services/base.service.ts:238-274 | of two requests for different days the second is answered with the page of the first |
| CachedReads.AnswersAreRecent | src/common/services/base.service.ts:184-275 | for such requests, with any writes behind the service's back and any failures: every answer was the repository's at most ttlSec ago, refresh included, and not-found is always current |
| CachedReads.RefreshedInTheWindow | src/common/services/base.service.ts:930-952 | a hit in the last swrSec seconds leaves the current page behind with a full TTL |
| CachedReads.FailedUpdateManyIff | src/common/services/base.service.ts:421-452 | after an updateMany that stops at a missing row the cache is coherent iff every cached row named behind it and not before keeps its answer and, if it stopped at once, every cached page keeps its contents |
| CachedReads.RowBehindMissingGoesStale | src/common/services/base.service.ts:421-452 | the family in which it is not |
| CachedReads.HitIgnoresOptions | src/common/services/base.service.ts:189-199 | a hit is right for other options iff they may see the row and project the same of it |
| CachedReads.DeletedRowIsServed | src/common/services/base.service.ts:189-199 | a deleted row read with withDeleted is then found without it, where the service without cache answers not found |
| CachedReads.DeletedPageIsServed | src/common/services/base.service.ts:238-274 | a page read with withDeleted is then served without it |
| CachedReads.PageHitIgnoresDeleted | src/common/services/base.service.ts:238-274 | a hit on a page is right for another withDeleted iff the page is the same |
| PageKeys.SameKeyIff | src/common/services/base.service.ts:238-246 | two requests share a key iff they ask for the same once their dates are left out, and select the same up to key order; multi-field search included |
| PageKeys.KeyTells | src/common/services/base.service.ts:910-916 | the half of it that needs nothing of the column names |
| FilterTexts.ShowWhere | src/common/utils/hash.util.ts:9-22 | what is shown of a filter: every condition without dates, and of the operators that alternatives share the first occurrence |
| ConditionBuilder.RedatedSharesKey | src/shared/helpers/condition-builder.ts:16-104 | whatever a request asks for, the same request for other days has the same key |
| ConditionBuilder.BuildMeans | src/shared/helpers/condition-builder.ts:16-117 | the filter of any request: one map of conditions, or one for every searched field with its search on top, what is set later replacing what was set before |
| ConditionBuilder.FindsIff | src/shared/helpers/condition-builder.ts:16-117 | a request whose dates and search are about columns of their own finds a row iff status, ids, user and days are as asked and one of the searched fields matches |
| ConditionBuilder.RemovedLeftOutIff | src/shared/helpers/condition-builder.ts:16-117 | without a status every alternative leaves out removed rows iff neither dates nor search replace that condition |
| ConditionBuilder.PrepareFields | src/common/services/base.service.ts:865-893 | all searchable fields if none is asked for, else those asked for, or a bad request if one may not be searched |
| BaseServiceCrud.BaseService.QueryFor | src/common/services/base.service.ts:212-246 | page, limit, sort and the built filter with the prepared fields reach what the page is asked with; none iff a field may not be searched |
| Whitelists.FilterRelationsObject | src/common/services/base.service.ts:639-664 | the loop computes the filtered object; filterSelectByWhitelist is the same loop |
| Whitelists.KeptIffListed | src/common/services/base.service.ts:639-745 | a flag comes through iff it was requested and its path is allowed at every step |
| Whitelists.ListedIff | src/common/services/base.service.ts:645-660 | what the in tests accept: the paths of the whitelist, and those from any of its objects to an inherited name |
| Whitelists.PathsAreAt | src/common/services/base.service.ts:613-631 | the listed paths are exactly the paths of the object |
| Whitelists.ExtractRelationKeys | src/common/services/base.service.ts:613-631 | the loop with its recursion gives the dotted names of all paths, in order |
| Whitelists.NamedIffPath | src/common/services/base.service.ts:613-631 | without dots in keys a dotted name is listed iff its path is |
| Whitelists.KeptIffInPaths | src/common/services/base.service.ts:587-664 | a requested flag comes through iff its path is one of the whitelist's, or leads from one of its objects to an inherited name |
| Whitelists.FormsAgree | src/common/services/base.service.ts:587-664 | object form and string form of a request let the same paths through, but for the inherited names that the object form lets through |
| Whitelists.InheritedNamePasses | src/common/services/base.service.ts:645-660 | inherited names pass in every object of a whitelist |
| Whitelists.FilterIsIdempotent | src/common/services/base.service.ts:639-745 | filtering twice is filtering once |
| QrService.QrPollingService.ReadTicketSnapshot | src/qr/qr-polling.service.ts:42-76 | snapshot and store: every read after expiry marks EXPIRED and bumps the version |
| QrService.QrPollingService.TryGetDeliveryCode | src/qr/qr-polling.service.ts:86-110 | the code only for its own web session and in time; an expired one is dropped |
| QrService.QrPollingService.ValidateAndConsumeDeliveryCode | src/qr/qr-polling.service.ts:254-280 | a right code is consumed, a wrong one left, an expired one dropped |
| QrService.QrService.CreateTicket | src/qr/qr.service.ts:79-129 | a fresh PENDING ticket of version 1 with its deadline and challenge, and the id, challenge, deep link and status answered |
| QrService.QrService.GetTicket | src/qr/qr.service.ts:137-156 | invalid id, absent, or the ticket, marked EXPIRED without a bump once its time is over |
| QrService.QrService.ScanTicket | src/qr/qr.service.ts:189-233 | every error case, both expiry tests, and the stored and published SCANNED ticket |
| QrService.QrService.ApproveTicket | src/qr/qr.service.ts:242-339 | every error case, PKCE, the failed action's return to PENDING, grant, delivery code and publication |
| QrService.QrService.RejectTicket | src/qr/qr.service.ts:348-381 | every error case and the stored and published REJECTED ticket |
| QrService.QrService.ExchangeGrant | src/qr/qr.service.ts:389-429 | errors in their order, USED ticket, deleted grant, publication |
| QrService.QrService.ExchangeDeliveryCode | src/qr/qr.service.ts:438-488 | consumed code, errors in their order, USED ticket, publication |
| QrService.QrService.CleanupExpired | src/qr/qr.service.ts:496-537 | exactly the stored tickets and grants past their own deadline go, and the counts are their numbers for any SCAN order |
| QrInvariants.ApplyKeeps | src/qr/qr.service.ts:79-537 | every action keeps the invariant that relates each past event to every later one and to the store |
| QrTheorems.OneApprovalOneRedemptionEach | src/qr/qr.service.ts:242-488 | in any run: one approval, one grant and one delivery code a ticket, each exchanged at most once, no delivery exchange after a grant exchange |
| QrTheorems.ExchangesAreInTime | src/qr/qr.service.ts:389-488 | every exchange goes back to an approval, and none is later than the ticket's expiresAt plus the grant TTL though writes renew the Redis TTL |
| QrTheorems.LiveGrantMeansClosedTicket | src/qr/qr.service.ts:304-317 | the stored ticket of a live grant is APPROVED, USED or EXPIRED |
| QrTheorems.LiveCodeMeansClosedTicket | src/qr/qr.service.ts:319-325 | the same for a live delivery code |
| QrTheorems.ApprovalNeedsVerifier | src/qr/qr.service.ts:261-272 | an approval goes through only with a verifier of the challenge at creation and within the ticket's lifetime (section 4.6 of RFC 7636) |
| QrTheorems.RejectionIsFinal | src/qr/qr.service.ts:348-381 | in any run: a rejected ticket is never approved, granted or given a delivery code, before or after |
| QrTheorems.EqualVersionsShowTheSame | src/qr/qr-polling.service.ts:42-76 | two poll snapshots of a ticket with one version have one status, scannedAt and approvedAt |
| QrTheorems.VersionsNeverFall | src/qr/qr.service.ts:149-153 | a stored ticket's version never decreases, nor does it reopen once approved, used or expired |
| QrTheorems.PublishedVersionsIncrease | src/qr/qr-polling.service.ts:220-244 | published versions of a ticket strictly increase |
| QrTheorems.WokenPollIsNewer | src/qr/qr-polling.service.ts:144-211 | a poll after a publication answers at least its version |
| QrTheorems.GrantAfterDelivery | src/qr/qr.service.ts:389-488 | a run in which one approval is redeemed twice |
| QrRedemption.SecondRedemptionIff | src/qr/qr.service.ts:389-488 | in any run: an exchange of a grant is a second redemption iff the delivery code was exchanged, and in time, or while the status is not EXPIRED, that is iff the stored status is USED |
| QrRedemption.DeliveryNamesApprover | src/qr/qr.service.ts:438-488 | in any run: the exchange of a delivery code answers a grant for the user who approved the ticket, with the kind and web session it was created with, which is the code's own |
| QrRedemption.GrantNamesApprover | src/qr/qr.service.ts:389-429 | in any run: an exchanged grant is the approver's, with the kind and web session of the ticket and the time of the approval |
| QrRedemption.RejectedStays | src/qr/qr.service.ts:348-381 | in any run: a rejected ticket shows REJECTED to every poll in time, and every approval of it fails |
| QrRedemption.ExpiryForgets | src/qr/qr.service.ts:389-488 | past the deadline no test of the store could tell: two runs end in one store, and the same exchange is the first redemption in one and the second in the other |
| QrLifecycle.ScanIff | src/qr/qr.service.ts:189-233 | a scan goes through iff the ticket is stored, PENDING and in time |
| QrLifecycle.ApproveIff | src/qr/qr.service.ts:242-339 | an approval goes through iff the ticket is PENDING or SCANNED and in time, the verifier is right and the action succeeds |
| QrLifecycle.RejectIff | src/qr/qr.service.ts:348-381 | a rejection goes through iff the ticket is PENDING or SCANNED and in time |
| QrLifecycle.ExchangeDeliveryIff | src/qr/qr.service.ts:438-488 | an exchange goes through iff the code is right and in time and the ticket APPROVED and in time |
| QrLifecycle.LateLoads | src/qr/qr.service.ts:137-156 | a ticket past its deadline is marked EXPIRED under its version by whoever loads it, and scan, approval and rejection are refused |
| QrLifecycle.LateAtLast | src/qr/qr.service.ts:202-267 | the same when only the second test of the deadline finds it passed, with the error for an expired ticket |
| QrLifecycle.PollShows | src/qr/qr-polling.service.ts:42-76 | a poll shows the ticket as stored, EXPIRED with one version more after its deadline |
| QrLifecycle.StoredThenFound | src/qr/qr.service.ts:79-537 | a stored ticket is found unchanged for a whole TTL, and not after |
| QrLifecycle.CreatedThenPolled | src/qr/qr.service.ts:79-129 | a new ticket shows PENDING, version 1, for its whole TTL and nothing after it |
| QrLifecycle.ScannedThen | src/qr/qr.service.ts:189-233 | after a scan: SCANNED with its time for every poll in time, no second scan, approval possible |
| QrLifecycle.RejectedThen | src/qr/qr.service.ts:348-381 | after a rejection: REJECTED for every poll in time, and scan, approval and rejection refused |
| QrLifecycle.WrongVerifier | src/qr/qr.service.ts:269-272 | a wrong verifier is refused and changes nothing |
| QrLifecycle.FailedThen | src/qr/qr.service.ts:274-302 | a failed action issues nothing and leaves a PENDING ticket that can be approved |
| QrLifecycle.ApprovedThenGrant | src/qr/qr.service.ts:304-429 | after an approval the grant is exchanged for the approver during its TTL while the ticket is stored, and not after |
| QrLifecycle.ApprovedThenCode | src/qr/qr.service.ts:319-488 | the delivery code likewise, while the ticket is in time |
| QrLifecycle.ApprovedThenOffered | src/qr/qr-polling.service.ts:86-110 | the code goes out to the ticket's web session during its TTL, to no other and not after |
| QrLifecycle.WrongCode | src/qr/qr-polling.service.ts:254-280 | a wrong code is refused and uses nothing up |
| QrLifecycle.ExchangedThen | src/qr/qr.service.ts:438-488 | after the exchange of a code: USED for every poll in time, and no code left |
| QrLifecycle.GrantExchangedThen | src/qr/qr.service.ts:389-429 | after the exchange of a grant: USED for every poll in time, and the grant gone |
| QrLifecycle.CleanedUp | src/qr/qr.service.ts:496-537 | after a clean-up no ticket or grant past its deadline is left, and all others and every delivery code are found as before |
| QrLifecycle.CleanupUnnoticed | src/qr/qr.service.ts:496-537 | poll, scan, approval and both exchanges answer as without the clean-up while ticket and grant are in time |
| QrController.EtagReadsBack | src/qr/qr.controller.ts:546-568 | parseIfNoneMatch gives back id and version of every ETag made for a well-formed id |
| QrController.EtagsDiffer | src/qr/qr.controller.ts:546-548 | different versions have different ETags |
| QrController.NotModifiedIsHonest | src/qr/qr.controller.ts:359-368 | whoever gets 304 misses no change of status, scannedAt or approvedAt, in any run |
| QrController.OfferedToCreator | src/qr/qr.controller.ts:488-540 | in any run a poll hands a delivery code only to the web session the ticket was created for, after an approval |
| QrController.ApprovedThenResponse | src/qr/qr.controller.ts:488-540 | the answer to a poll after an approval: ETag, snapshot, and the code for the ticket's own web session during its TTL |
| QrController.OfferLeaves | src/qr/qr-polling.service.ts:86-110 | answering a poll drops exactly the delivery code of an approved ticket that is past its time |
| QrController.OfferUnnoticed | src/qr/qr.controller.ts:488-540 | answering a poll changes no answer of a later exchange or poll |
| QrController.SinceEtag | src/qr/qr.controller.ts:434-450 | a long poll with the ETag of an answer waits for a version newer than that answer's, without one for any |
| QrController.WaitForChangeOrTimeout | src/qr/qr-polling.service.ts:144-211 | CHANGED and TIMEOUT, each exactly when: the timer at once, else what settles first once a newer version or a failure has started the clean-up |
| QrController.LongPollAdvances | src/qr/qr.controller.ts:434-482 | woken by a newer version, the answer is newer than If-None-Match, if the ticket is still stored |
| QrController.QrController.PollTicket | src/qr/qr.controller.ts:343-405 | 400, 304 and 200, each exactly when, with snapshot, delivery code and the store after it |
| QrController.QrController.LongPollStart | src/qr/qr.controller.ts:424-450 | answers at once iff the version has moved on, else waits for the version asked about; answer and store |
| QrController.QrController.LongPollFinish | src/qr/qr.controller.ts:452-478 | the answer and the store after the wait, whatever its outcome |
| QrController.QrController.BuildPollResponse | src/qr/qr.controller.ts:488-540 | a delivery code goes out iff the ticket is APPROVED, the code is in time and the web session is its own; an expired one is dropped |
| OtpService.RedisOtpStore.Get | src/auth/providers/otp-store.provider.ts:38-60 | the data, or nothing with an expired one deleted |
| OtpService.RedisOtpStore.IncrementAttempts | src/auth/providers/otp-store.provider.ts:82-123 | one attempt more, and the key loses its TTL |
| OtpService.RedisOtpStore.MarkAsUsed | src/auth/providers/otp-store.provider.ts:130-163 | the key is gone, success iff it was there |
| OtpService.AuthService.RequestOtp | src/auth/auth.service.ts:255-323 | stores a fresh code for a known email, nothing for an unknown one |
| OtpService.AuthService.VerifyOtp | src/auth/auth.service.ts:331-483 | every branch in its order, store and answer |
| OtpLogin.VerifyTracks | src/auth/auth.service.ts:331-483 | one verification answers as the counts of earlier comparisons say, and keeps them |
| OtpLogin.OneCodeBounds | src/auth/auth.service.ts:331-483 | until the next request for the account: at most maxAttempts wrong comparisons, at most one acceptance |
| OtpLogin.AnswersAreVerdicts | src/auth/auth.service.ts:331-483 | a code is accepted iff it is right, in time, not accepted before and with an attempt left; every other answer is determined too |
| OtpLogin.NothingBeforeRequest | src/auth/auth.service.ts:331-351 | without a request no code is ever compared |
| SessionService.UsersService.RevokeSession | src/users/users.service.ts:114-124 | revoked, or not found |
| SessionService.UsersService.RevokeSessionsByUserId | src/users/users.service.ts:126-131 | every session of the user is revoked, no other changes |
| SessionService.AuthService.GenerateToken | src/auth/auth.service.ts:91-139 | the session row and both keys with their lifetimes |
| SessionService.AuthService.RefreshToken | src/auth/auth.service.ts:196-226 | an access key exactly for a session that is neither revoked nor expired and whose user is known, else which error |
| SessionService.AuthService.Logout | src/auth/auth.service.ts:141-149 | the session revoked or not found, the matching keys gone either way |
| SessionService.AuthService.LogoutAll | src/auth/auth.service.ts:151-159 | the user's sessions revoked, the matching keys gone |
| SessionService.AuthService.VerifyCache | src/auth/guard/jwt-access-token.guard.ts:7-15 | the guard passes iff the key has a positive TTL |
| GlobPatterns.GlobTwoStars | src/shared/services/cache/cache.service.ts:599-601 | the suffix pattern with its doubled star matches exactly the keys with that suffix |
| GlobPatterns.GlobContains | src/shared/services/cache/cache.service.ts:599-601 | a pattern with a star on both sides matches exactly the keys that contain the text |
| SessionTokens.SessionPatternMatches | src/auth/auth.service.ts:141-145 | logout's pattern matches exactly the token keys of sessions whose id ends with the given one |
| SessionTokens.UserPatternMatches | src/auth/auth.service.ts:151-155 | logoutAll's pattern matches exactly the user's own token keys, for digit ids |
| SessionTokens.TokenKeyIsInjective | src/auth/auth.service.ts:125-136 | a token key determines user, kind and session |
| SessionTheorems.ApplyKeeps | src/auth/auth.service.ts:91-226 | every step keeps: a stored token key belongs to an existing, non-revoked session of that user, with a bounded deadline |
| SessionTheorems.GuardMeansSession | src/auth/guard/jwt-refresh-token.guard.ts:7-15 | in any run, who passes a guard has such a session; not expired behind the refresh guard, at most an hour over behind the access guard |
| SessionTheorems.AccessOutlivesSessionIff | src/auth/auth.service.ts:196-226 | a renewed access key passes its guard at some moment after the session's end iff less than the key's lifetime was left of the session |
| SessionTheorems.AccessAfterTheEnd | src/auth/auth.service.ts:196-226 | a run that passes the access guard 3599 seconds after the session's end |
| SessionTheorems.LoginKeyEndsFirst | src/auth/auth.service.ts:91-139 | the access key of a login never outlives its session |
| SessionTheorems.LogoutIsFinal | src/auth/auth.service.ts:141-149 | after logout no token of the session passes a guard, whatever happens later |
| SessionTheorems.LogoutAllIsFinal | src/auth/auth.service.ts:151-159 | the same for every session the user had |
| SessionTheorems.LogoutAllSparesOthers | src/auth/auth.service.ts:151-159 | no other user's key or session changes |
| SessionTheorems.LogoutSparesUnlessSuffix | src/auth/auth.service.ts:141-149 | another session's key survives iff its id does not end with the given one |
| SessionTheorems.LoginPasses | src/auth/auth.service.ts:91-139 | a login passes both guards at once |
| SessionTheorems.LoginLifetimes | src/auth/auth.service.ts:125-136 | the access key of a login passes its guard for an hour, its refresh key until the session's end after seven days |
| SessionTheorems.RenewIff | src/auth/auth.service.ts:196-226 | a refresh succeeds iff the session exists, is not revoked and has not ended and its user is known; an access key of an hour, and nothing else changes |
| SessionTheorems.SessionKept | src/auth/auth.service.ts:91-226 | in any run a session keeps its user and end, and is revoked iff it or its user was logged out |
| SessionTheorems.LoginCanBeRefreshed | src/auth/auth.service.ts:91-226 | a login can be refreshed until its end, iff it was not logged out |
| SessionTheorems.LogoutRevokes | src/auth/auth.service.ts:141-149 | done or not found as the session exists, and that session alone is revoked |
| Bits.OrIsSum | src/shared/libs/snowflake/snowflake.ts:48-53 | or of a multiple of 2^n with a smaller number is their sum, also below zero |
| Bits.AndIsRemainder | src/shared/libs/snowflake/snowflake.ts:56-62 | a mask of n ones is the remainder modulo 2^n, also below zero |
| SnowflakeIds.Snowflake.NextId | src/shared/libs/snowflake/snowflake.ts:32-54 | state and id after a call, with a spin only over a used-up millisecond, which ends whenever the clock moves on; the id is larger iff the clock has not gone back |
| SnowflakeIds.PackIsSum | src/shared/libs/snowflake/snowflake.ts:48-53 | an id is a number in mixed radix of timestamp, worker mod 32, process mod 32 and sequence |
| SnowflakeIds.ParseInvertsPack | src/shared/libs/snowflake/snowflake.ts:56-71 | parseId gives back all four parts, for every timestamp |
| SnowflakeIds.StepIncreasesIff | src/shared/libs/snowflake/snowflake.ts:32-54 | one call increases the id iff the clock reading is not below the last one used |
| SnowflakeIds.IdsIncrease | src/shared/libs/snowflake/snowflake.ts:32-54 | the ids of any number of calls are strictly increasing |
| SnowflakeIds.IdsIncreaseIff | src/shared/libs/snowflake/snowflake.ts:32-54 | the ids of a run increase iff no call finds the clock behind the call before |
| SnowflakeIds.CallsAreNumbered | src/shared/libs/snowflake/snowflake.ts:32-46 | the calls of a new millisecond are numbered from 0 without waiting, 4096 of them; one more waits for the next millisecond and starts again at 0 |
| SnowflakeIds.RepeatsIff | src/shared/libs/snowflake/snowflake.ts:32-54 | two calls give one id iff they end in one millisecond with one sequence number |
| SnowflakeIds.IdsAreParsed | src/shared/libs/snowflake/snowflake.ts:56-71 | every generated id is read back |
| SnowflakeIds.NoCollision | src/shared/libs/snowflake/snowflake.ts:48-53 | generators that differ in worker or process modulo 32 never share an id |
| SnowflakeIds.NamesCountModulo32 | src/shared/libs/snowflake/snowflake.ts:49-50 | generators whose names agree modulo 32 give the same ids, call by call |
| SnowflakeIds.ClockGoingBackRepeats | src/shared/libs/snowflake/snowflake.ts:32-46 | a clock that goes back and returns to a used millisecond makes a generator repeat itself |
| SnowflakeIds.CompareIsAge | src/shared/libs/snowflake/snowflake.ts:96-101 | compare orders the ids of a generator by age |
| Base64Url.Decode | src/qr/qr.utils.ts:99-109 | the padding loop restores the padding |
| Base64Url.EncodeIsSextets | src/qr/qr.utils.ts:84-90 | the output is one URL-safe character for every six bits (section 5 of RFC 4648) |
| Base64Url.EncodeIsUrlSafe | src/qr/qr.utils.ts:84-90 | alphabet and length of the output, no dot and no padding |
| Base64Url.DecodeInvertsEncode | src/qr/qr.utils.ts:84-109 | decoding inverts encoding for every byte sequence |
| Base64Url.ChallengeAcceptsItsHash | src/qr/qr.utils.ts:29-49 | a code challenge accepts exactly the verifiers with its hash (sections 4.2 and 4.6 of RFC 7636) |
| SanitizePayload.Sanitize | src/qr/qr.utils.ts:220-297 | the loops compute the sanitized payload |
| SanitizePayload.PayloadIdempotent | src/qr/qr.utils.ts:220-297 | sanitizing twice is sanitizing once |
| SanitizePayload.PayloadShowsWhatIsAlike | src/qr/qr.utils.ts:220-297 | two payloads give equal results iff they differ at most under sensitive keys, below maxDepth, behind the tenth item or the hundredth character |
| SanitizePayload.PayloadIsSmall | src/qr/qr.utils.ts:220-297 | depth, array sizes and string lengths of the result are bounded |
| SanitizePayload.SensitiveIff | src/qr/qr.utils.ts:220-297 | a key is sensitive iff it contains one of eight words in any case |
| SanitizePayload.Replaced | src/qr/qr.utils.ts:220-297 | what stands for what is cut: the three markers, the first hundred characters, the first ten items |
| SanitizePayload.PlainPayloadStays | src/qr/qr.utils.ts:220-297 | a payload with nothing to hide or to cut comes out as it went in |
| KeyOrder.SortedIsUnique | src/common/utils/hash.util.ts:14-19 | keys without ties have one sorted order |
| KeyOrder.OrderIsUnique | src/common/utils/hash.util.ts:14-19 | sorting and then inserting gives an order that depends on the set of keys alone when no two ordinary keys tie |
| KeyOrder.OrderPrecedes | src/common/utils/hash.util.ts:14-19 | ordinary keys that tie keep the order in which they come |
| KeyOrder.LayoutAscends | src/common/utils/hash.util.ts:14-19 | array indices come first and ascending, the ordinary keys after them |
| StableJson.SameText | src/common/utils/hash.util.ts:7-31 | values equal up to key order at every level have the same text when no object has tied keys |
| StableJson.EqualTextMeansSame | src/common/utils/hash.util.ts:7-31 | values with the same text are equal up to key order once every Date is an object without keys |
| StableJson.SameTextIff | src/common/utils/hash.util.ts:7-31 | without ties: two values have the same text iff they are equal up to key order once every Date is an object without keys |
| StableJson.OrderShowsIff | src/common/utils/hash.util.ts:7-31 | all reorderings of a value have its text iff no object in it has ordinary keys that tie |
| StableStringifier.Stringifier.Stringify | src/common/utils/hash.util.ts:9-22 | result and seen set for every value, shared and cyclic objects included: children in sorted key order, a marker for an object already seen |
| StableStringifier.Stringifier.StableStringify | src/common/utils/hash.util.ts:7-31 | the text of the ordered form after the second sort |
| StableStringifier.TreeIsOrdered | src/common/utils/hash.util.ts:9-22 | on a tree nothing is cut: the result is the ordered form at every level |
| StableStringifier.UncutIffTree | src/common/utils/hash.util.ts:9-22 | the result is the ordered form iff no object or array occurs twice |
| StableStringifier.TextOfTree | src/common/utils/hash.util.ts:7-31 | the theorems about ordered forms are about the text of every tree |
| StableStringifier.SharedIsCut | src/common/utils/hash.util.ts:11-13 | an object in two places of an array is cut in the second, without any cycle |

## Left out

- DeleteKeysByPattern: when SCAN returns a name twice the count is more than the number of deleted keys, as in the code.
- WaitForChangeOrTimeout: the waiter's signals come as one list, the end of its clean-up among them; a list that ends too early has no answer.
- FormsAgree: keys with a dot in them are excluded, as two paths can then have one name.
- EqualTextMeansSame: JSON.stringify is a function that tells values apart, so values that it cannot carry (undefined, functions, NaN) are not modelled; a property order as in JavaScript, array indices first, is. A property whose value is undefined is no property.
- SameKeyIff: the text stands for its SHA-256; of an operator object its type and its value are modelled, which determine the rest.
- Build: the days of a date are given from outside (time zones), the search text comes normalized, and extra filters are part of the request.
- FindsIff: the pattern matches of the database are given from outside; a request whose dates or search take the place of another condition is left to BuildMeans and RemovedLeftOutIff.
- FindById: a hit is the stored value itself; that a Date comes back from the cache as text is not modelled.
- Concurrency inside a handler: Lua scripts are atomic by nature, but the other handlers are taken as one step each. Interleaved, two verifications of one OTP could both be accepted, a failing approval could show APPROVED and PENDING under one version, and a cache fill could overwrite an invalidation.
- Several clock readings in one handler are one, except where a handler tests a deadline twice (scan, approve, verify OTP).
- Floating point: token counts are exact reals, not Lua numbers written with fourteen digits; integers in JSON and in `Number(...)` are unbounded.
- A sorted set member of the sliding window is its own score, as the script adds it.
- Redis keys of tickets, grants, delivery codes and rows are constructors instead of texts; the keys of pages and the token keys of sessions are texts. The JSON of values is read back unchanged, except where a theorem is about that.
- Redis failures, other than a refused TTL of zero and a key of the wrong type.
- SHA-256, HMAC, JWT signing, bcrypt and random ids: functions given from outside, and values not seen before.
- Glob patterns with character classes or escapes, which no pattern of the modelled operations has.
- Hooks, events, transactions and relation tables of `BaseService`; `findOne`, which has no cache.
- A filter that is an array (multi-field search) in `listCursor`, whose filters are conditions on integer columns.
- SQL null and column types: a column is an integer, a row is a map.
- `GraphQLBaseService`, `findMatchingPolicy` and the naming of rate-limit keys, whose natural properties do not hold or are plain text.
- `getStats`, `getTicketPreview`, gateway notifications of the QR module, and the connection handling of the long-poll subscription.
- Ticket payloads, which no transition reads.
- The e-mail of an OTP: a failing send answers an error after the code is stored.
- `toBigInt` of texts, `isValid` and `getEpoch` of Snowflake.
- A base64 text with padding in its middle, where Node's versions differ.
- An array as the payload of `sanitizePayload`, which its type excludes, and the key `__proto__` in payloads and whitelists.
