# A verified model of the gateway's stateful core

The gateway forwards chat requests of many tenants to language-model providers. This project
models the parts of its Go backend that keep state across requests, and the two codecs its
streams pass through, and proves what they keep over every run:

| files | part of the system |
|---|---|
| `QuotaLedger`, `QuotaTheorems`, `QuotaMeaning` | reservations, settlement and the reaper, as transactions over two tables |
| `PolicyIndex`, `PolicyRefresh` | the in-memory count of policies that lets requests skip the database, and its refresh beside concurrent writes |
| `L1Cache`, `RedisAuthCache`, `AuthCacheProtocol`, `AuthCacheTheorems` | the authentication cache: local LRU, Redis layer, and loads, promotions and invalidations interleaved |
| `Failure`, `RetryPolicy`, `RetryLoop` | failure classification, backoff and the retry loop of one candidate |
| `Breaker`, `BreakerTheorems` | the circuit breaker with any set of outstanding permits |
| `ProviderQueue` | the bounded queue, stepped at each channel and atomic operation |
| `KeySelector`, `KeyTheorems` | rotating key selection with versioned cooldowns |
| `Resources`, `SlotLeases`, `RequestsAndQueue`, `PreparedStream` | who holds permits and slots while requests run, the queue beneath them, and the stream hand-off |
| `UsageOutbox`, `OutboxTheorems`, `EmitterProtocol`, `EmitterAndOutbox` | the durable usage outbox, its relay and store, the close protocol of the batching writer, and all of them together |
| `AnthropicWriter`, `AnthropicMapper`, `StreamRoundTrip`, `StreamMeaning`, `EventGrammar` | chat chunks written as Anthropic events and mapped back |
| `SseFraming`, `SseRoundTrip`, `SseReading` | server-sent event framing, byte by byte |
| `RateLimiter` | the fixed-window script |

Objects that the source updates in place are classes whose methods are proved against functions
on values; the theorems are about those functions, or about state machines that take them as
steps. Protocols between threads are state machines with one step for each lock, channel, atomic
or database operation, so a statement about every run is a statement about every interleaving.
Database statements and Redis commands take effect as a whole or not at all, time never goes
backwards, and the price catalog, chunk validation and white-space trimming are arbitrary functions.

To check the project, run `dafny verify dfyconfig.toml` in this directory.

## What the proofs found

- **Authentication cache.** Redis never holds a snapshot older than the last completed
  invalidation (`SharedIsAlwaysFresh`). The local cache can: a load that reads the generation
  after an invalidation has raised it, and then Redis before the invalidation has deleted the
  value there, inserts the old snapshot afterwards (`LocalCanBeStale`). A run keeps the local cache
  fresh if and only if it has no such step (`LocalIsFreshExactly`). The message an invalidation
  publishes repairs the entry when it comes back (`EchoConfirms`, `LocalIsFreshOnceConfirmed`).
- **Policy index.** A refresh that read the table before a policy was committed and replaces the index
  after the policy was put there takes the policy out again; until the next refresh its requests pass
  unreserved (`RefreshCanForgetAPolicy`). Such a step, or an older version put late, is the only way the
  index falls behind (`IndexKeepsUpExactly`).
- **Key selection.** The rotation counter wraps at 64 bits before the remainder is taken, so a scan
  that runs across the wrap visits every key only if the number of keys divides 2^64
  (`CoversExactly`). Otherwise the only available key can be missed (`CanMissTheOnlyKey`).
- **Anthropic events.** Text or tool deltas in chunks after the finish reason are written after
  `message_stop`, and a stream without any chunk is closed without having been started. These
  are the only ways the event order is violated (`EncodingIsWellFormed`).
- **Event reader.** Empty data lines at the start of an event are forgotten instead of becoming newlines
  (`EventIsRead`); the trimming that follows hides the difference.
- **Rate limiter.** At the millisecond of its expiry the counter still exists with a remaining time of
  zero, so the branch for a missing expiry is taken there too; the bound holds all the same, but a
  caller that comes back at just that moment is refused and the counter gets another window
  (`ServedAfterExpiryExactly`). Starting
  without a counter it is one below twice the limit, and that is reached
  (`LessThanTwiceTheLimit`, `BoundIsReached`).
- **Durable emitter.** A waiting caller that is told that the emitter closed before its write completed
  could always have taken its result instead (`ResultIsThereWhenDone`): when both are
  there the select may choose either.

## Model

| member | source | states |
|---|---|---|
| QuotaLedger.Add | internal/quota/manager.go:769-777 | on 64-bit operands the checked sum is present exactly when it fits, and is then the sum |
| QuotaLedger.Manager.Reserve | internal/quota/manager.go:363-463 | invalid arguments are refused and an overflowing estimate too, a request without an indexed policy passes untouched, and otherwise decision, error and tables are those of the transaction with the estimated cost |
| QuotaLedger.Manager.ReserveTransaction | internal/quota/manager.go:384-461 | decision, error and new tables are those of the specification; an error leaves both tables as they were |
| QuotaLedger.Manager.Settle | internal/quota/manager.go:465-521 | the tables become those in which every row of the group is settled in policy order |
| QuotaLedger.Manager.ReapExpired | internal/quota/manager.go:523-573 | the tables become those in which every expired row the query returned is an estimate |
| QuotaLedger.EstimateCost | internal/quota/manager.go:593-617 | the maximum of the known quotes, called known exactly when there is a candidate and all have one |
| QuotaTheorems.ReserveRowExactly | internal/quota/manager.go:403-457 | a policy's row is committed exactly when the policy admits the request: budget known and no limit passed under deny, no counter overflow |
| QuotaTheorems.ReserveRowsExactly | internal/quota/manager.go:403-461 | the loop commits exactly when every policy admits the request on the ledger before the transaction; then each policy gained its own booking and no other policy's rows moved |
| QuotaTheorems.ReserveRowsDecide | internal/quota/manager.go:403-461 | a committed reservation reports whether any policy was passed on the ledger before the transaction, and every notice in policy order |
| QuotaTheorems.ReserveRowsRefuse | internal/quota/manager.go:411-445 | a refused reservation carries the error of the first policy that does not admit it: unknown cost before limit before overflow |
| QuotaTheorems.ReserveExactly | internal/quota/manager.go:384-461 | Reserve commits exactly when the group is known or all policies admit it; a refusal over several policies changes nothing; repeating it changes nothing |
| QuotaTheorems.SettleRowsExactly | internal/quota/manager.go:475-520 | settling rewrites exactly the listed rows whatever their order, and keeps the ledger sound |
| QuotaTheorems.ReapRowsExactly | internal/quota/manager.go:529-571 | reaping turns exactly the listed active rows into estimates, and keeps the ledger sound |
| QuotaTheorems.RunIsSound | internal/quota/manager.go:384-571 | every operation of every run keeps all window counters equal to the sums over reservations |
| QuotaTheorems.ConservationAlways | internal/quota/manager.go:384-571 | in every reachable ledger reserved counters are the sums over active rows, settled counters the sums of estimates and actual amounts |
| QuotaTheorems.RunKeepsLimits | internal/quota/manager.go:421-437 | no operation of a run takes a window of a fixed deny policy past its limits plus measured overruns |
| QuotaTheorems.LimitsAlways | internal/quota/manager.go:619-685 | under a fixed deny policy requests never pass their limit, tokens and cost pass theirs by at most the sum of max(0, actual - reserved) over settled rows |
| QuotaTheorems.SameRowsSameLedger | internal/quota/manager.go:483-517 | conservation makes the windows a function of the reservations |
| QuotaTheorems.SettleCommutesWithReap | internal/quota/manager.go:483-567 | settlement and reaper commute: the reaper afterwards only meets the rows the settlement left |
| QuotaTheorems.LateSettlementIsExact | internal/quota/manager.go:483-567 | a group estimated by the reaper settles to the same windows and amounts as if it never had been |
| QuotaTheorems.SettlementsCommute | internal/quota/manager.go:475-520 | settlements of distinct groups commute |
| QuotaTheorems.SettlingTwiceChangesNothing | internal/quota/manager.go:483-487 | a repeated settlement, even with another measurement, changes nothing |
| QuotaMeaning.PeriodStartExactly | internal/quota/manager.go:743-755 | the window start is the only whole number of minutes, hours or days with start <= now < start + period |
| QuotaMeaning.PassedExactly | internal/quota/manager.go:661-685 | in plain integers over 64-bit counters: a limit is passed exactly when settled + reserved + incoming is above it or leaves 64 bits |
| QuotaMeaning.ReserveAdmitsExactly | internal/quota/manager.go:384-461 | a new group is committed exactly when every policy has room for it, its cost is known where a deny policy has a budget, and no counter overflows; so a request that fits every limit is never turned away |
| QuotaMeaning.RefusedForALimitExactly | internal/quota/manager.go:421-427 | a policy refuses for its limits exactly when it denies, the cost is known where needed, and its window has no room |
| QuotaMeaning.BookedPlainly | internal/quota/manager.go:430-457 | a committed row and its window, counter by counter |
| QuotaMeaning.SettleChargesPlainly | internal/quota/manager.go:619-638 | every listed row not yet settled is charged the measured tokens and quoted cost, else what it had reserved if an upstream was tried, else nothing; all other rows stay |
| QuotaMeaning.SettleMovesWindows | internal/quota/manager.go:483-517 | the window of each row moves by exactly its charge, an active row leaving the reserved counters and an estimate the settled ones; all other windows stay |
| QuotaMeaning.ReapPlainly | internal/quota/manager.go:540-567 | a reaped row becomes an estimate of what it had reserved, which moves from the reserved to the settled counters |
| PolicyIndex.Index.Insert | internal/quota/policy_index.go:53-64 | adds a policy and keeps every count exact |
| PolicyIndex.Index.Remove | internal/quota/policy_index.go:66-83 | removes a policy, keeps every count exact and leaves neither zero counts nor empty inner maps |
| PolicyIndex.Index.Put | internal/quota/policy_index.go:39-44 | replaces one policy and keeps every count exact |
| PolicyIndex.Index.Replace | internal/quota/policy_index.go:26-37 | afterwards the index holds exactly the given policies with exact counts |
| PolicyIndex.Index.Has | internal/quota/policy_index.go:46-51 | true exactly when some indexed policy holds the request |
| PolicyIndex.CountsDecide | internal/quota/manager.go:393-402 | positive counts for the model or the wildcard are equivalent to a row of the policy query |
| PolicyIndex.MirrorAnswersForDatabase | internal/quota/policy_index.go:115-123 | an index that mirrors the table answers for it, and a policy written to both keeps the mirror |
| PolicyIndex.LoadMirrors | internal/quota/policy_index.go:85-94 | loading the enabled rows establishes the mirror |
| PolicyRefresh.StepKeeps | internal/quota/policy_index.go:85-94 | the index, pending writes and pending readings never run ahead of the table, and a reading has exactly the enabled rows unchanged since it was taken |
| PolicyRefresh.IndexKeepsUpExactly | internal/quota/policy_index.go:85-113 | over every interleaving of commits, puts, reads and loads the index has every enabled row whose put is done, in all states, exactly when no older reading is loaded and no older version put over such a row |
| PolicyRefresh.MissesOnlyUnsettled | internal/quota/manager.go:374-376 | a request is then missed only while every policy that holds it is still to be put |
| PolicyRefresh.RefreshRepairs | internal/quota/policy_index.go:85-94 | loading a reading that no commit has overtaken makes the index answer for the table |
| PolicyRefresh.RefreshCanForgetAPolicy | internal/quota/policy_index.go:85-94 | a run in which a refresh removes a policy put meanwhile, so that its requests are missed with no write pending |
| PolicyRefresh.ShortcutIsTheTransaction | internal/quota/manager.go:374-376 | where the policy query would return nothing, passing at once is what the transaction does |
| L1Cache.Cache.Get | internal/apikey/cache_l1.go:36-54 | a hit is the stored unexpired entry, moved to the front; an expired one is removed; never an entry at or past its end |
| L1Cache.Cache.Set | internal/apikey/cache_l1.go:56-85 | the new entry goes to the front of the recency list, replacing its old form, and exactly the least recently used one is evicted when the list is full |
| L1Cache.Cache.DeleteKey | internal/apikey/cache_l1.go:87-91 | removes exactly the entries of the API key and returns their number |
| L1Cache.Cache.DeleteTenant | internal/apikey/cache_l1.go:93-97 | removes exactly the entries of the tenant and returns their number |
| L1Cache.Cache.DeleteIndexed | internal/apikey/cache_l1.go:99-110 | removes exactly the indexed entries although the iterated set shrinks |
| L1Cache.Cache.Remove | internal/apikey/cache_l1.go:112-121 | unlinks one entry from map, list and both indexes |
| L1Cache.AddIndexInverts | internal/apikey/cache_l1.go:123-134 | the extended index is the inverse of the extended entry map, without empty sets |
| L1Cache.DeleteIndexInverts | internal/apikey/cache_l1.go:136-146 | the reduced index is the inverse of the reduced entry map, without empty sets |
| L1Cache.RemovedIsLinked | internal/apikey/cache_l1.go:112-121 | map, list and indexes still agree after a removal |
| L1Cache.PushedIsLinked | internal/apikey/cache_l1.go:56-85 | map, list and indexes still agree after an insertion |
| L1Cache.MovedIsLinked | internal/apikey/cache_l1.go:36-54 | map, list and indexes still agree after a hit |
| L1Cache.StoredIsFound | internal/apikey/cache_l1.go:36-85 | what was stored is a hit until its lifetime or its snapshot's end, whichever comes first, and expired from then on |
| L1Cache.StoredKeepsOthers | internal/apikey/cache_l1.go:67-84 | storing keeps every other entry in order, except the last when the list is full |
| L1Cache.LookupReorders | internal/apikey/cache_l1.go:36-54 | a hit comes to the front, an expired entry goes, all others keep their order |
| RedisAuthCache.Store.Put | internal/apikey/cache_redis.go:46-63 | value and both index sets are written with their lifetimes |
| RedisAuthCache.Store.InvalidateKey | internal/apikey/cache_redis.go:72-86 | removes the key's index and every value it lists |
| RedisAuthCache.Store.InvalidateTenant | internal/apikey/cache_redis.go:88-99 | removes the tenant's index and every value it lists |
| RedisAuthCache.StoreKeepsIndexed | internal/apikey/cache_redis.go:46-63 | storing keeps every live value reachable from its key index and its tenant index |
| RedisAuthCache.DeleteValueKeepsIndexed | internal/apikey/cache_redis.go:65-70 | deleting a value keeps all others reachable |
| RedisAuthCache.LocatedCoversOwner | internal/apikey/cache_redis.go:72-99 | what an invalidation finds covers every live value of its owner |
| RedisAuthCache.InvalidateKeepsIndexed | internal/apikey/cache_redis.go:72-99 | the values that survive an invalidation stay reachable |
| RedisAuthCache.StoredIsReadable | internal/apikey/cache_redis.go:35-63 | a stored snapshot can be read back exactly until now + ttl, and no other value changes |
| RedisAuthCache.InvalidateKeyExactly | internal/apikey/cache_redis.go:72-86 | invalidating a key removes its live value and no value of another key |
| RedisAuthCache.InvalidateTenantExactly | internal/apikey/cache_redis.go:88-99 | invalidating a tenant removes its live values and no value of another tenant |
| AuthCacheProtocol.StepKeepsInvariant | internal/apikey/cache.go:151-459 | every step of loads, promotions and invalidations keeps the cache invariant |
| AuthCacheTheorems.SharedIsAlwaysFresh | internal/apikey/cache.go:224-332 | in every interleaving a live Redis value was read from the database after the start of the last completed invalidation of its key and of its tenant |
| AuthCacheTheorems.StaleInsertExactly | internal/apikey/cache.go:151-186 | a snapshot inserted under the current generation is stale exactly when the step crosses an invalidation: it was read from Redis while an invalidation of its owner held the lock, and that one has completed |
| AuthCacheTheorems.LocalIsFreshExactly | internal/apikey/cache.go:151-332 | in every run from the start the local cache is fresh against all completed invalidations in all states exactly when no step crosses |
| AuthCacheTheorems.CrossingIsStale | internal/apikey/cache.go:176-180 | a step that crosses leaves a stale entry in the local cache |
| AuthCacheTheorems.LocalCanBeStale | internal/apikey/cache.go:151-186 | a run that ends with a stale, unexpired local entry |
| AuthCacheTheorems.EchoConfirms | internal/apikey/cache.go:402-428 | handling an invalidation message confirms what had completed for its owner, and nothing is ever unconfirmed |
| AuthCacheTheorems.LocalIsFreshOnceConfirmed | internal/apikey/cache.go:306-428 | local entries are fresh against every confirmed invalidation |
| AuthCacheTheorems.LocalNeverOutlives | internal/apikey/cache.go:236-265 | in every run no local entry outlives its own lifetime or the Redis value it stems from |
| AuthCacheTheorems.InvalidationIsPrecise | internal/apikey/cache.go:306-332 | in every reachable state invalidating a key would remove its live value and no value of another key |
| Failure.LocalErrorsAreFinal | internal/reliability/attempt.go:776-795 | an error raised before the upstream was reached is never retried and never counted |
| Failure.CountedErrors | internal/reliability/failure.go:88-224 | the breaker counts exactly missing, broken or failing upstream answers in a live context, and wrapped failures that count themselves |
| Failure.KeySwitchingErrors | internal/reliability/failure.go:88-224 | another key is asked for exactly on 401, 403 and 429, wrapped or not, in a live context |
| Failure.RetriedErrors | internal/reliability/retry.go:115-121 | another attempt is asked for exactly on silence, on the statuses 401, 403, 429, 500, 502, 503 and 504, and on wrapped failures that ask for it, in a live context |
| Failure.FallbackErrors | internal/reliability/failure.go:88-224 | another provider is tried unless the caller is gone, the request is at fault, a wrapped failure forbids it or the status is another 4xx or 5xx |
| Failure.SignalsExactly | internal/reliability/failure.go:88-126 | the four signals, one by one, for any failure |
| Failure.HttpCategories | internal/reliability/failure.go:191-219 | the category of every HTTP status, and the retry delay of a 429 |
| Failure.OtherCategories | internal/reliability/failure.go:128-224 | the category of every other error, the context coming first |
| Breaker.CircuitBreaker.Allow | internal/reliability/breaker.go:103-136 | grants the permit, or rejects with the remaining open time, and leaves the state, that the specification gives |
| Breaker.CircuitBreaker.CompletePermit | internal/reliability/breaker.go:177-203 | the new state is that of the specification, a stale permit changing nothing |
| Breaker.CircuitBreaker.CompleteProbe | internal/reliability/breaker.go:205-222 | the new state after a probe, closing or reopening included |
| Breaker.PermitHandle.Complete | internal/reliability/breaker.go:161-167 | only the first report of a permit reaches the breaker |
| Breaker.PermitHandle.Abandon | internal/reliability/breaker.go:169-231 | only the first report of a permit reaches the breaker |
| BreakerTheorems.StepKeeps | internal/reliability/breaker.go:103-259 | every step keeps the run invariant with any permits outstanding |
| BreakerTheorems.CountersAlways | internal/reliability/breaker.go:103-259 | in every reachable state the probe counter is the number of unfinished probes of the generation and at most the maximum; while closed the failure counter is the number of counted failures since the last success and below the threshold |
| BreakerTheorems.QuietWhileOpen | internal/reliability/breaker.go:103-136 | no permit is granted within the open duration after any opening, over whole runs |
| BreakerTheorems.OpenExactlyForItsTime | internal/reliability/breaker.go:103-136 | in every reachable open state a request is let through exactly when the configured duration since the last opening is over, and is told the rest of it before |
| BreakerTheorems.RejectionsAreCounted | internal/reliability/breaker.go:123-135 | the rejected counter is the number of requests turned away |
| BreakerTheorems.GrantedExactly | internal/reliability/breaker.go:103-136 | exactly when a request is let through: always while closed, once the duration since the last opening is over while open, and while fewer probes than allowed are out while half open |
| BreakerTheorems.NoProbeLeaks | internal/reliability/breaker.go:205-241 | with no permit out and the open time over the next request is let through |
| BreakerTheorems.StalePermitsAreInert | internal/reliability/breaker.go:177-231 | a permit of an earlier generation never changes the state |
| BreakerTheorems.StaleForGood | internal/reliability/breaker.go:177-259 | once its generation is over, a permit changes nothing however and whenever it ends in the rest of the run |
| BreakerTheorems.ProbeCounterIsPositive | internal/reliability/breaker.go:209-231 | the guards against a negative probe counter never apply |
| BreakerTheorems.ClosesExactly | internal/reliability/breaker.go:205-259 | the breaker closes exactly on the success that completes the required number within one half-open generation |
| BreakerTheorems.OpensExactly | internal/reliability/breaker.go:177-250 | it opens exactly when a closed generation reaches the threshold of counted failures in a row, or a current probe fails and counts |
| ProviderQueue.StepKeeps | internal/reliability/queue.go:93-197 | every atomic step keeps each occupied slot owned by exactly one caller and both counters exact |
| ProviderQueue.BoundsAlways | internal/reliability/queue.go:93-162 | in every interleaving 0 <= active <= slots <= MaxInFlight and 0 <= waiting <= MaxWaiting |
| ProviderQueue.ReceivesNeverBlock | internal/reliability/queue.go:112-197 | the receives in Release and in a cancelled Acquire never block |
| ProviderQueue.NobodyIsStuck | internal/reliability/queue.go:93-197 | every caller can always take a step, in the select at least by its timer or context |
| ProviderQueue.RefusedExactly | internal/reliability/queue.go:151-162 | a caller is refused exactly when the maximum number is waiting at that moment |
| ProviderQueue.ServedAtOnceExactly | internal/reliability/queue.go:141-149 | a caller gets a slot at once exactly when fewer slots than allowed have an owner |
| ProviderQueue.SlotTakenExactly | internal/reliability/queue.go:111-119 | a waiting caller can take a slot exactly when one is free |
| ProviderQueue.NothingLeaks | internal/reliability/queue.go:93-197 | when all callers are gone no slot and no count is left |
| SlotLeases.StepIsLeasing | internal/reliability/queue.go:93-197 | each step of the queue is a lease granted within the limit, a lease given back by its holder, or neither |
| SlotLeases.RunIsLeasing | internal/reliability/queue.go:93-197 | every run of the queue is a run of such lease events |
| KeySelector.Selector.FindPreferred | internal/reliability/keyselector.go:193-201 | finds a key exactly when an available key of that name exists |
| KeySelector.Selector.SelectKey | internal/reliability/keyselector.go:179-229 | the preferred key if available, else the first available key of the scan, else the exact least remaining cooldown among the scanned keys |
| KeySelector.Selector.Complete | internal/reliability/keyselector.go:346-381 | only the first report counts and changes only the selected key |
| KeySelector.CoversExactly | internal/reliability/keyselector.go:203-207 | a scan visits every key exactly when the counter does not wrap during it or the key count divides the word size |
| KeySelector.AnswersForAllKeys | internal/reliability/keyselector.go:179-229 | then selection succeeds exactly when some key is available, and otherwise reports the least remaining cooldown over all keys |
| KeySelector.CanMissTheOnlyKey | internal/reliability/keyselector.go:203-220 | in every other case some key states make it fail although a key is available |
| KeyTheorems.MissIsReachable | internal/reliability/keyselector.go:203-220 | such key states are reached by a run from fresh keys in which all others are answered with 401 |
| KeySelector.ThreeKeysCanMissOne | internal/reliability/keyselector.go:203-207 | three keys and the last counter value are such a case |
| KeyTheorems.StepPreservesKeys | internal/reliability/keyselector.go:346-381 | no completion shortens a cooldown in force, and disabling is final |
| KeyTheorems.ReportTakesEffect | internal/reliability/keyselector.go:354-380 | a 401 ends the use of a key; after a 429 it is available again exactly when its old cooldown and Retry-After, 30 s if unset and a day at most, are over; a success of an unchanged key frees it; the version rises exactly with a change of state |
| KeyTheorems.CooldownIsHonoured | internal/reliability/keyselector.go:179-381 | over whole runs with outstanding selections a cooling key is not selected before its time |
| KeyTheorems.RateLimitedKeyRests | internal/reliability/keyselector.go:366-379 | a key answered with 429 is not selected within the announced time in any continuation of the run |
| KeyTheorems.DisabledForGood | internal/reliability/keyselector.go:362-365 | a disabled key is never selected again |
| KeyTheorems.SuccessOnlyClearsExpired | internal/reliability/keyselector.go:356-361 | a success takes effect only on a cooldown that had expired when the key was selected |
| RetryPolicy.Backoff | internal/reliability/retry.go:123-147 | the loop with its early stop computes the capped power, jittered and capped again |
| RetryPolicy.BackoffIsBounded | internal/reliability/retry.go:123-147 | a delay is the remaining cooldown when keys are exhausted, and otherwise neither negative nor above the maximum |
| RetryPolicy.BackoffExactly | internal/reliability/retry.go:123-147 | the delay in closed form: none after a key was at fault, else initial * multiplier^(attempt-1), capped, times a factor between one minus and one plus the jitter ratio, capped |
| RetryPolicy.BackoffGrows | internal/reliability/retry.go:131-139 | without jitter later retries never wait less |
| RetryLoop.ExecuteOnce | internal/reliability/attempt.go:521-809 | the first refusing gate decides the outcome, else the selected key and the upstream's answer |
| RetryLoop.RoundsPlainly | internal/reliability/attempt.go:521-809 | what a round comes to, gate by gate: category of each refusal, the key used, the delay of exhausted keys, and the upstream's answer |
| RetryLoop.RetriesExactly | internal/reliability/retry.go:115-121 | another round follows exactly a failure that asks for it, while attempts are left |
| RetryLoop.StaysWithItsKey | internal/reliability/attempt.go:403-426 | after a failure that is not the key's the next call is made with the same key if it is available |
| RetryLoop.Wait | internal/reliability/retry.go:149-168 | a granted positive wait ends later than its delay and was begun with more time than that left |
| RetryLoop.Remember | internal/reliability/attempt.go:403-426 | which key to go on with and which not to use again |
| RetryLoop.Execute | internal/reliability/attempt.go:247-461 | terminates; at most MaxAttempts upstream calls; a trail numbered 1..n of exactly the attempted rounds, each begun with the keys and the time the earlier ones left; no key answered with 401 or 403 appears again; all but the last attempt were retryable; the reason for ending |
| Resources.StepKeeps | internal/reliability/attempt.go:570-809 | every step of any number of interleaved requests, panics included, keeps permits and slots accounted for |
| Resources.AtMostOnce | internal/reliability/attempt.go:590-774 | no permit takes effect twice and no lease is released twice, in any run |
| Resources.BreakerHearsWhatHappened | internal/reliability/attempt.go:598-774 | in every run the breaker hears of each request exactly how it ended, and only a panic drops the permit |
| Resources.EndsAsItHappened | internal/reliability/stream_attempt.go:100-144 | what each step makes of a request's end, and what it passes on |
| Resources.CleaningNeverBlocks | internal/reliability/queue.go:190-197 | a request on its way out can always go on |
| Resources.NothingOutstanding | internal/reliability/stream_attempt.go:357-465 | when all requests have ended each permit took effect exactly once, each slot was given back, and no probe is out |
| Resources.NextRequestGetsThrough | internal/reliability/breaker.go:103-136 | and the breaker lets the next request through once the open duration since its last opening is over |
| RequestsAndQueue.StepKeeps | internal/reliability/attempt.go:600-630 | requests and queue steps together keep the slots requests hold equal to the leases of the queue |
| RequestsAndQueue.MeaningIsEnabled | internal/reliability/queue.go:93-197 | whenever the queue grants, refuses or takes back a slot, the request can take the matching step |
| RequestsAndQueue.SlotsAreLeases | internal/reliability/queue.go:93-197 | in every interleaving the slots requests count are the leases, and at most the occupied slots |
| RequestsAndQueue.NothingLeftAnywhere | internal/reliability/stream_attempt.go:100-144 | once all requests have ended the queue holds no slot, no active and no waiting count, and no permit is out |
| PreparedStream.Lease.Release | internal/reliability/queue.go:190-197 | only the first release gives the slot back |
| PreparedStream.Stream.Finish | internal/reliability/stream_attempt.go:100-120 | the first end reports to key, breaker and queue; any later one changes nothing |
| PreparedStream.Stream.FinishError | internal/reliability/stream_attempt.go:123-136 | ends the stream with the classified error, reporting to key, breaker and queue; changes nothing without an error or after the end |
| PreparedStream.Stream.Abort | internal/reliability/stream_attempt.go:139-144 | frees the slot while the breaker sees an abandoned permit and the key nothing |
| PreparedStream.AbortIsAbandon | internal/reliability/breaker.go:177-231 | to the breaker a reported cancellation equals an abandoned permit |
| UsageOutbox.Database.WriteBatch | internal/usage/outbox.go:237-299 | pending rows are written before final rows; each write learns the outcome of its own statement |
| UsageOutbox.Database.PublishRecords | internal/usage/outbox.go:421-455 | delivers in order up to the first record without payload or refused; only if all were delivered every row of theirs is published with its payload unchanged |
| UsageOutbox.Database.RecoverPending | internal/usage/outbox.go:457-506 | gives a final form to rows still pending, row by row, and counts exactly those |
| UsageOutbox.Database.PutBatch | internal/usage/store.go:96-141 | inserts absent rows and deletes outbox rows together or not at all; stored plus duplicates is the batch size |
| UsageOutbox.InsertPendingExactly | internal/usage/outbox.go:259-277 | existing rows stay, missing ones become pending |
| UsageOutbox.UpsertReadyExactly | internal/usage/outbox.go:279-299 | exactly the named rows become ready with one of their payloads |
| UsageOutbox.MarkPublishedExactly | internal/usage/outbox.go:443-453 | exactly the named rows become published, payloads unchanged |
| UsageOutbox.PublishedIsNotReady | internal/usage/outbox.go:347-358 | after that no delivered event is ready, so the next poll does not take it again |
| UsageOutbox.RecoverAllExactly | internal/usage/outbox.go:489-504 | exactly the listed rows that are pending become ready with a body listed for them |
| UsageOutbox.InsertUsageExactly | internal/usage/store.go:118-131 | existing usage rows stay, each missing one takes a delivered body |
| OutboxTheorems.StepKeeps | internal/usage/outbox.go:146-506 | every step of writers, relays, recovery and store keeps the outbox invariant |
| OutboxTheorems.BegunIsNeverLost | internal/usage/outbox.go:259-299 | once its beginning is committed an event is in the outbox or in the usage table in every later state |
| OutboxTheorems.UsageIsWrittenOnce | internal/usage/store.go:118-140 | a usage row is written once and never changed, and the reported counts add up to the rows |
| OutboxTheorems.PayloadIsAlwaysThere | internal/usage/outbox.go:421-506 | rows that are ready or published carry a payload, pending rows do not |
| OutboxTheorems.UsageIsGenuine | internal/usage/outbox.go:279-506 | a usage row holds a final form that the request or the recovery gave to that event |
| OutboxTheorems.CanAlwaysBeStored | internal/usage/outbox.go:347-506 | from every reachable state each outbox row can be taken into the usage table |
| OutboxTheorems.RecoveryKeepsFinalForms | internal/usage/outbox.go:489-504 | recovery never replaces a final payload |
| EmitterProtocol.StepKeeps | internal/usage/outbox.go:128-257 | every step of callers, loop and Close keeps writes conserved and in order |
| EmitterProtocol.NothingSentAfterStop | internal/usage/outbox.go:128-167 | no write enters the channel after the stop |
| EmitterProtocol.FirstSelectNeverSeesDone | internal/usage/outbox.go:159-167 | the done branch of the first select is unreachable |
| EmitterProtocol.AtMostOnceInOrder | internal/usage/outbox.go:180-257 | writes are passed on and answered at most once, in sending order |
| EmitterProtocol.EverythingAnsweredWhenDone | internal/usage/outbox.go:180-257 | when the loop has ended each write sent was passed on once and answered once |
| EmitterProtocol.ResultIsThereWhenDone | internal/usage/outbox.go:169-177 | a caller that sees the end has its result waiting |
| EmitterProtocol.StoppedOnlyCloser | internal/usage/outbox.go:180-235 | once stopped each step of the loop lowers a rank that no other step raises |
| EmitterProtocol.StoppedNeverStuck | internal/usage/outbox.go:180-257 | once stopped the loop can always step until it has ended; no result send blocks |
| EmitterProtocol.DrainNeverTurnsBack | internal/usage/outbox.go:226-235 | the drain goes on until it is done |
| EmitterAndOutbox.StepIsOutboxRun | internal/usage/outbox.go:128-299 | each step of emitter, relays and consumers together is a few steps of the outbox, which it can take |
| EmitterAndOutbox.RunIsOutboxRun | internal/usage/outbox.go:128-506 | every interleaving of them is a run of the outbox |
| EmitterAndOutbox.BegunIsNeverLost | internal/usage/outbox.go:85-103 | behind the emitter a committed beginning stays in the outbox or in the usage table |
| EmitterAndOutbox.NothingUnwrittenWhenDone | internal/usage/outbox.go:180-235 | when the loop has ended no write is left in front of the database |
| AnthropicWriter.StreamWriter.OpenTextBlock | internal/httpapi/anthropic_messages.go:563-574 | opens the text block once, under the next block index |
| AnthropicWriter.StreamWriter.ToolDelta | internal/httpapi/anthropic_messages.go:576-611 | appends the events and makes the state the specification gives for a tool delta |
| AnthropicWriter.StreamWriter.Complete | internal/httpapi/anthropic_messages.go:613-648 | closes text and tools in index order and ends the message, once |
| AnthropicWriter.StreamWriter.Write | internal/httpapi/anthropic_messages.go:480-561 | appends the events and makes the state the specification gives for a chunk |
| AnthropicMapper.StreamMapper.Map | internal/provider/anthropic.go:471-630 | chunks, end and new state, or the error, that the specification gives for an event, pings, end markers and faulty events included |
| StreamRoundTrip.RoundTrip | internal/provider/anthropic.go:471-643 | for every chunk stream the written events decode to a finished stream exactly when the tools sent up to the finish carry id and name, and then text, tools (renumbered by first appearance) and mapped finish reason are restored; otherwise decoding breaks off |
| StreamRoundTrip.RoundTripOfAll | internal/httpapi/anthropic_messages.go:480-648 | when nothing is said after the finish, the text and tools of the whole stream arrive |
| StreamRoundTrip.FinishRoundTrip | internal/provider/anthropic.go:632-643 | a finish reason survives both vocabularies exactly when it is stop, length, tool_calls or content_filter |
| StreamMeaning.StopReasonIsWritten | internal/httpapi/anthropic_messages.go:437-450 | every stream is written with exactly one stop reason: end_turn, max_tokens, tool_use, refusal, or the finish reason itself |
| StreamMeaning.StopsInOrder | internal/httpapi/anthropic_messages.go:625-636 | tools are closed in ascending order of their index, each once |
| StreamMeaning.StopReasonIsRead | internal/provider/anthropic.go:632-643 | the finish reason each stop reason is mapped to |
| StreamMeaning.EventsBecomeChunks | internal/provider/anthropic.go:506-629 | which events are invalid, end the stream, or become one chunk, and which chunk |
| StreamMeaning.PingsAreInvisible | internal/provider/anthropic.go:517-519 | pings anywhere in a stream do not change what is decoded |
| StreamMeaning.EndsAndFaults | internal/provider/anthropic.go:476-629 | an end marker ends the stream with what was decoded, a fault breaks it off |
| StreamMeaning.OpeningTextIsRead | internal/provider/anthropic.go:552-557 | a text block that opens with text brings it along |
| EventGrammar.EncodingIsWellFormed | internal/httpapi/anthropic_messages.go:480-648 | block indices are consecutive, deltas fall into open blocks of their kind, each block is closed exactly once and nothing follows the end, exactly when there was a chunk and the chunks after the finish are silent |
| SseFraming.EventStream.ReadSlice | internal/provider/stream.go:174-176 | the buffered reader gives a line, a full buffer or the last bytes |
| SseFraming.EventStream.ReadStreamLine | internal/provider/stream.go:170-201 | the fragment loop returns the line up to the first newline, and refuses it exactly when it is too long |
| SseFraming.EventStream.Next | internal/provider/stream.go:52-113 | returns the next event of the specification and is finished exactly after the end marker |
| SseRoundTrip.WriteMappedChunks | internal/provider/native_stream.go:272-292 | frames the chunks in front of the first invalid one, and the end marker only if all were valid |
| SseRoundTrip.HeartbeatIsSkipped | internal/provider/native_stream.go:114-135 | an activity comment in front of anything does not change what is read |
| SseRoundTrip.FrameIsRead | internal/provider/stream.go:52-150 | a data frame yields its text, or is refused exactly when it does not fit on a line |
| SseRoundTrip.RoundTrip | internal/provider/stream.go:52-222 | chunks with heartbeats anywhere, then the end marker: exactly the chunks in order and the end; or, if one does not fit on a line, exactly those in front of it and a refusal |
| SseRoundTrip.CutOffStream | internal/provider/stream.go:64-73 | a stream cut off between frames yields the same chunks and then the bare end of input |
| SseRoundTrip.Drain | internal/provider/stream.go:52-113 | repeated Next delivers what the specification of the whole input says |
| SseReading.EitherEndingIsRead | internal/provider/stream.go:170-208 | a line ended by newline or by carriage return and newline is read as its text, and refused exactly when it is over the limit |
| SseReading.LastLineIsRead | internal/provider/stream.go:191-193 | a last line without an end is read, one byte more being allowed |
| SseReading.FieldIsSplit | internal/provider/stream.go:211-222 | a field is split at its first colon and one space after it is dropped |
| SseReading.OtherLinesAreSkipped | internal/provider/stream.go:83-96 | comments and fields other than data leave no trace |
| SseReading.EventIsRead | internal/provider/stream.go:58-112 | an event of several data lines is its values joined by newlines, empty ones in front forgotten, refused exactly when over the limit and skipped exactly when empty |
| SseReading.FrameOutcome | internal/provider/stream.go:131-150 | a frame's text is trimmed and is then the end marker, a valid chunk or refused |
| SseReading.LastEventIsRead | internal/provider/stream.go:66-69 | data in front of the end of input makes a last event |
| SseReading.Spelled | internal/provider/stream.go:12-21 | the field name, end marker, heartbeat and limits, spelled out |
| RateLimiter.Redis.FixedWindow | internal/ratelimit/limiter.go:18-57 | counter, expiry and reply after the script |
| RateLimiter.Allow | internal/ratelimit/limiter.go:98-184 | every reply of the script is accepted, and the delay told to a refused caller reaches the expiry and exceeds it by less than a second; without a reply the failure policy decides |
| RateLimiter.ParsedDecisionsAreSensible | internal/ratelimit/limiter.go:152-184 | a reply is read as a decision exactly when its four integers make sense together |
| RateLimiter.CounterAlwaysExpires | internal/ratelimit/limiter.go:37-41 | after every call the counter has a time to live, a new one exactly if it had none left |
| RateLimiter.ServedAfterExpiryExactly | internal/ratelimit/limiter.go:18-57 | a refused caller is served at a later time exactly when that is after the expiry |
| RateLimiter.LifetimesAreDisjoint | internal/ratelimit/limiter.go:18-57 | one counter admits at most the limit and counters are created more than a window apart |
| RateLimiter.TwiceTheLimit | internal/ratelimit/limiter.go:18-57 | whatever the counter was, any half-open interval one window long admits at most twice the limit |
| RateLimiter.LessThanTwiceTheLimit | internal/ratelimit/limiter.go:18-57 | without a counter to begin with, one less than that |
| RateLimiter.BoundIsReached | internal/ratelimit/limiter.go:18-57 | for every limit and every window of at least three milliseconds a run that reaches it |

## Left out

- HTTP handlers, routing, encryption, hashing, tracing, metrics, configuration loading and the frontend.
- The fallback between candidates, the response cache, the control plane, audit logs and vendor request conversion: mostly field mapping.
- The OpenAI Responses stream writer, whose text block always takes output index 0.
- Authentication cache freshness across several gateway processes, where only the lifetime bounds staleness, and freshness of lookups that join an older load.
- Token counts, identifiers and model names in the stream codecs; usage that arrives after the finish chunk is not sent on by the writer.
- 64-bit wrap-around of the breaker generation, the key versions and the window counters in Settle and ReapExpired; the checked addition in Reserve is modelled.
- Trimming of identifiers and provider names, and the tables that look a provider up by name.
- The start of a calendar month, which is handed in with the request.
- Retention cleanup of usage rows, the usage worker and the price catalog; any delivered entry may be stored any number of times.
- Read errors of the network other than the end of input, and the text rules by which an upstream error code means an unavailable model.
- A request context without a deadline; the gateway gives every request one.
- The retry loop of streaming requests (internal/reliability/stream_attempt.go:211-310), which repeats the one in Execute around prepareStreamOnce.
- ProviderQueue.StepKeeps: the queue is modelled on values, one function step for each atomic operation, so the objects behind the channel and the counters do not appear.
- Resources.StepKeeps: the queue appears as its number of leased slots; RequestsAndQueue puts its inner steps beneath them.
- PolicyIndex.MirrorAnswersForDatabase: writing a policy to table and index counts as one step here; PolicyRefresh takes them apart.
- PolicyIndex.LoadMirrors: reading the table and replacing the index count as one step here; PolicyRefresh takes them apart.
- RetryLoop.ExecuteOnce: the reports to key, breaker and queue on the way out are not part of it; they are the subject of Resources.
- RetryLoop.Execute: bookkeeping of attempt numbers and key names inside the returned failure is not modelled.
