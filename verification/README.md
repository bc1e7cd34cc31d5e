# Checkout saga and rate limiters

Two models of this repository and the properties proved of them, with Dafny 4.11.
`dafny verify dfyconfig.toml` checks everything.

**The rate limiters.** The token bucket, the sliding window counter and the sliding window
log, each once as the in-memory Go limiter and once as the Redis script. `Limiter` says what
they share: an algorithm answers one call from one key's state, a run is any finite sequence
of calls, and a keyed run interleaves many keys. Each Go limiter is a class with a map from
keys to state that is updated in place (the log prunes its slice inside its backing array),
and each script is a class `Redis` over a key space; their methods are proved against a
specification function, and the theorems are about every run of that function. Arithmetic is
exact: fractions are multiplied out, so a bucket of `capacity` tokens is a level of
`capacity * interval` that gains `capacity` per nanosecond and spends `interval` per request,
and the counter tests `prev * (W - e) + curr * W + W <= limit * W`. Every time and duration is
in nanoseconds; the window scripts take their window in whole milliseconds.

**The checkout saga.** Orders, payment and catalog share nothing but the messages they
publish. `Saga` is a step system: every database transaction, catalog call and publish is one
atomic step, every handler run is a process that stands between two steps and may crash there,
a published message may be delivered any number of times, in any order or never, and a remote
effect may be lost, or happen and be reported as an error. `SagaInvariant` and `SagaSteps`
prove one joint invariant of the three stores, the message pool and all half-finished runs;
`SagaTheorems`, `SagaRollback`, `SagaAbandoned`, `SagaProgress` and `SagaCharges` derive from it
what holds in every reachable state, and `SagaPrices` adds that no price ever changes.
`Handlers` writes the handlers as the loops and early returns they are, over stores that every
other run may change between any two steps, and proves that each call is a run of the step
system, so every theorem about runs holds of the handlers.
How far a handler can rely on its calls is a constant of the deployment: not at all, so far that
no reply is lost and releases get through, or so far that every call is answered; under the last
each handler is proved to do its job, not only to do no harm.

The catalog tables carry a journal of stock movements, and the world a log of the payment
processor's answers, which no code reads. Theorems about
lines (`Shipped`, `Restored`, `OnHold`) are stated on it: how often a line was ever held, given
back or consumed, and in what quantity.

Four results differ from what the code's own documentation says; the code is modelled as it
is, and each comes with inputs that fail and the exact condition.

- `Retry-After` of the token bucket is said to make a client that honours it succeed
  (docs/adr/0001-rate-limiter-algorithm.md:133-138, gateway/middleware/ratelimit.go:184-185).
  `durationFor` truncates, so the wait can fall a fraction of a nanosecond short
  (`TokenBuckets.TruncatedRetryIsDenied`). The in-memory bucket's wait suffices after every
  denial of every run exactly if `interval` is a multiple of `capacity`
  (`TokenBuckets.RetryIsHonoredIff`). The whole-second header can fall short as well
  (`Gateway.BucketHeaderCanFallShort`, a run in which every reading is zero, so one of either
  clock). For a clock that advances in whole ticks it suffices after every denial of every run
  exactly if a token accrues in at most a second, or `interval` and what one tick refills have a
  common divisor of at least `capacity` (`BucketHeader.HeaderIsHonoredIff`). In memory, where a
  tick is a nanosecond, the divisor condition says that `interval` is a multiple of `capacity`
  (`BucketHeader.InMemoryHeaderIsHonoredIff`). The bucket the gateway runs (gateway/main.go:75)
  reads Redis's microsecond clock (`BucketHeader.ScriptHeaderIsHonoredIff`): there any capacity
  up to a thousand over a whole number of microseconds is fine
  (`BucketHeader.ModestBucketsAreHonored`).
- `ResetAfter` is said to be how long until a key is at full capacity
  (ratelimiter/ratelimiter.go:47-50). For the log it is (`WindowLogs.ResetAfterIsLeast`); for
  the in-memory bucket it is truncated, and exact in every run under the condition of its
  RetryAfter (`TokenBuckets.ResetIsHonoredIff`); for the counter it is the end of the current
  window, and the key is at full capacity from then on exactly if nothing was admitted in that
  window, and otherwise one window later (`WindowCounters.ResetAfterIsWindowEnd`). A fresh
  key's first answer already falls short (`WindowCounters.FirstResetFallsShort`).
- "Exactly one charge attempt" per order (services/payment/saga.go:46-50,
  services/payment/payment.go:203-206) holds of the row and of the published outcome, not of
  calls to the processor. Overlapping runs can each call it
  (`SagaCharges.ProcessorMayBeAskedTwice`), and so can a client that retries after a charge
  whose insert failed (`SagaCharges.RetryAfterFailedInsertAsksAgain`). From any state the
  processor can still be called exactly if the order has no payments row or some run has
  already found none and not yet called it (`SagaCharges.AskedAgainIff`).
- A `createOrder` that fails before its order is announced is said to leave nothing behind
  (services/orders/handlers.go:99-106, :176-177, :203-207). Once its run is over, rolled back or
  cut off, a line of the order is still held exactly if its Reserve took effect and was reported
  as an error, or its release in the rollback did not get through, or the run was cut off while
  holding it (a crash, or an announcement that was not published, which the source accepts); and
  the order has a row exactly if the insert took effect and was reported as an error, or the run
  was cut off between insert and announcement (`SagaAbandoned.OverLeavesExactly`). One run of each kind:
  `SagaRollback.LostReserveLeavesHold`, `SagaRollback.MissedReleaseLeavesHold`,
  `SagaAbandoned.CrashLeavesHold`, `SagaRollback.LostRecordLeavesRow`. If none of this happens
  to its own run it leaves nothing, whatever other runs meet
  (`SagaAbandoned.CreateIsAllOrNothing`); what is left nobody ever clears
  (`SagaAbandoned.AbandonedForGood`).

## Model

| member | source | states |
|---|---|---|
| `Limiter.KeysAreIndependent` | ratelimiter/algorithms/tokenbucket.go:71-82 | in any interleaving of calls on many keys, a key's state and answers are those of its own calls alone |
| `Limiter.RemainingHoldsAcrossKeys` | ratelimiter/ratelimiter.go:42-45 | whatever happens on other keys, the i-th later call on a key at the instant of an answer is admitted iff i < `remaining` |
| `Limiter.DenialsLeaveNoTrace` | ratelimiter/ratelimiter.go:42-60 | if denied calls leave a key as they found it, any of them may be left out of a run and every other answer, denied or admitted, is unchanged |
| `TokenBuckets.TokenBucket.New` | ratelimiter/algorithms/tokenbucket.go:49-65 | refused exactly for a non-positive capacity or interval |
| `TokenBuckets.TokenBucket.Allow` | ratelimiter/algorithms/tokenbucket.go:68-97 | in place, one key's bucket and the answer become what the specification says; every other key is untouched |
| `TokenBuckets.TokenBucket.Spend` | ratelimiter/algorithms/tokenbucket.go:84-96 | spends one token or reports the wait |
| `TokenBuckets.TokenBucket.Replenish` | ratelimiter/algorithms/tokenbucket.go:101-110 | credits elapsed time up to a full bucket; a backward clock credits nothing |
| `TokenBuckets.AnswersAreWellFormed` | ratelimiter/ratelimiter.go:36-56 | under any clock every answer of every run carries the capacity, 0 <= remaining < capacity, nothing remaining on denial, no wait on admission and no negative duration |
| `TokenBuckets.RemainingExact` | ratelimiter/algorithms/tokenbucket.go:84-93 | after any call from any state, exactly `remaining` more calls at that instant are admitted |
| `TokenBuckets.PollingIsHarmless` | ratelimiter/algorithms/tokenbucket.go:68-110 | on a non-decreasing clock, leaving any denied calls out of a run changes no other answer |
| `TokenBuckets.LevelIsMultiple` | ratelimiter/algorithms/tokenbucket.go:101-110 | on a clock of whole ticks, whatever divides a token's cost and a tick's refill divides every reachable level |
| `TokenBuckets.LevelIsTightest` | ratelimiter/algorithms/tokenbucket.go:74-97 | under any clock, the stored level is the minimum, over all earlier calls, of what a full bucket then would have left now |
| `TokenBuckets.EnvelopeDecides` | ratelimiter/algorithms/tokenbucket.go:68-110 | under any clock, a request is admitted iff the admissions since every earlier call, plus it, fit in a full bucket plus the refill since |
| `TokenBuckets.EnvelopesInRealTime` | ratelimiter/algorithms/tokenbucket.go:101-110 | when the clock never goes back those envelopes are capacity + rate * (now - t_j) |
| `TokenBuckets.LevelInBounds` | ratelimiter/algorithms/tokenbucket.go:101-110 | tokens stay within [0, capacity] under any clock |
| `TokenBuckets.BurstBound` | ratelimiter/algorithms/tokenbucket.go:68-110 | over every stretch of every run, admissions are at most capacity + rate * forward clock movement |
| `TokenBuckets.RetryAfterIsTruncated` | ratelimiter/algorithms/tokenbucket.go:113-118 | after a denial the advertised wait suffices iff nothing was truncated; one nanosecond more always does, anything shorter never |
| `TokenBuckets.RetryIsHonoredIff` | ratelimiter/algorithms/tokenbucket.go:90-118 | the in-memory bucket's RetryAfter suffices after every denial of every run, on a nanosecond clock, iff interval is a multiple of capacity |
| `TokenBuckets.ResetAfterIsTruncated` | ratelimiter/algorithms/tokenbucket.go:95-118 | a silent key's bucket is full at every time after ResetAfter and at none before; at ResetAfter itself iff nothing was truncated |
| `TokenBuckets.ResetIsHonoredIff` | ratelimiter/algorithms/tokenbucket.go:95-118 | the in-memory bucket's ResetAfter is exactly the time to a full bucket in every run, on a nanosecond clock, iff interval is a multiple of capacity |
| `TokenBuckets.TruncatedRetryIsDenied` | ratelimiter/algorithms/tokenbucket.go:113-118 | a run whose client obeys the truncated wait and is denied again |
| `WindowCounters.SlidingWindowCounter.New` | ratelimiter/algorithms/slidingwindowcounter.go:61-77 | refused exactly for a non-positive limit or window |
| `WindowCounters.SlidingWindowCounter.Allow` | ratelimiter/algorithms/slidingwindowcounter.go:80-116 | in place, one key's counter and the answer become what the specification says; every other key is untouched |
| `WindowCounters.SlidingWindowCounter.Charge` | ratelimiter/algorithms/slidingwindowcounter.go:91-115 | rolls, tests the weighted estimate and counts or reports the wait |
| `WindowCounters.SlidingWindowCounter.RollTo` | ratelimiter/algorithms/slidingwindowcounter.go:120-143 | the four branches of the roll |
| `WindowCounters.AnswerIsWellFormed` | ratelimiter/ratelimiter.go:36-56 | the same of the counter from every state and under any clock, with a reset in (0, W] |
| `WindowCounters.JumpingBackMakesNoRoom` | ratelimiter/algorithms/slidingwindowcounter.go:120-126 | after a backward jump the estimate is no lower than it was at any time in the key's window |
| `WindowCounters.RollTwice` | ratelimiter/algorithms/slidingwindowcounter.go:120-143 | polling is harmless: rolling at t1 and then at t2 is rolling at t2 |
| `WindowCounters.LoadFallsInSilence` | ratelimiter/algorithms/slidingwindowcounter.go:93-143 | in silence the estimate never rises, across any number of rollovers |
| `WindowCounters.PollingIsHarmless` | ratelimiter/algorithms/slidingwindowcounter.go:80-143 | on a non-decreasing clock, leaving any denied calls out of a run changes no other answer, so no later admission |
| `WindowCounters.RemainingExact` | ratelimiter/algorithms/slidingwindowcounter.go:98-107 | after any call from any state, exactly `remaining` more calls at that instant are admitted |
| `WindowCounters.CountsAreExact` | ratelimiter/algorithms/slidingwindowcounter.go:80-143 | after any run, `curr` and `prev` are the true admission counts of the current and the preceding fixed window |
| `WindowCounters.RetryBranches` | ratelimiter/algorithms/slidingwindowcounter.go:147-199 | on a reachable denial the empty-key, `target < 0`, `wait <= 0` and `wait > remainder` branches are dead; the `f >= 1` branch is taken when prev > 0 and curr == limit - 1, and there the remainder is the least wait |
| `WindowCounters.LeastWaitIsLeast` | ratelimiter/algorithms/slidingwindowcounter.go:147-199 | waiting d in silence succeeds exactly from the closed-form wait on, across both rollovers |
| `WindowCounters.RetryAfterIsLeast` | ratelimiter/algorithms/slidingwindowcounter.go:147-199 | after a denial anywhere in a run, RetryAfter is exactly the least sufficient wait, and every longer one suffices too |
| `WindowCounters.ResetAfterIsWindowEnd` | ratelimiter/algorithms/slidingwindowcounter.go:112-143 | after any run a silent key's estimate is zero exactly from ResetAfter on if nothing was admitted in the current window, and exactly one window later otherwise |
| `WindowCounters.FirstResetFallsShort` | ratelimiter/algorithms/slidingwindowcounter.go:112-114 | in every configuration a fresh key's first answer advertises one window, after which its estimate is not yet zero; after two it is |
| `WindowCounters.BoundaryBound` | ratelimiter/algorithms/slidingwindowcounter.go:93-107 | what a fixed window and the d after it admit, when anything was admitted in those d |
| `WindowCounters.FixedWindowBound` | ratelimiter/algorithms/slidingwindowcounter.go:93-107 | no fixed window admits more than limit |
| `WindowCounters.PastBoundaryBound` | ratelimiter/algorithms/slidingwindowcounter.go:93-107 | an interval reaching at most one window before a boundary and d past it admits at most limit + limit * d / W |
| `WindowCounters.AnyWindowBound` | ratelimiter/algorithms/slidingwindowcounter.go:93-107 | no interval of length W admits more than 2 * limit - 1 |
| `WindowLogs.SlidingWindowLog.New` | ratelimiter/algorithms/slidingwindowlog.go:35-51 | refused exactly for a non-positive limit or window |
| `WindowLogs.SlidingWindowLog.Allow` | ratelimiter/algorithms/slidingwindowlog.go:55-94 | in place, one key's log and the answer become what the specification says; every other key's log is untouched |
| `WindowLogs.SlidingWindowLog.Charge` | ratelimiter/algorithms/slidingwindowlog.go:66-93 | prunes, then records or reports the wait |
| `WindowLogs.SlidingWindowLog.Prune` | ratelimiter/algorithms/slidingwindowlog.go:66-73 | filters the slice inside its own array, keeping the order |
| `WindowLogs.SlidingWindowLog.Append` | ratelimiter/algorithms/slidingwindowlog.go:78-78 | the old elements followed by the new one, in place while there is room |
| `WindowLogs.SlidingWindowLog.FindOldest` | ratelimiter/algorithms/slidingwindowlog.go:113-121 | the scan returns `Oldest` |
| `WindowLogs.SlidingWindowLog.FindNewest` | ratelimiter/algorithms/slidingwindowlog.go:124-132 | the scan returns `Newest` |
| `WindowLogs.OldestIsLeast` | ratelimiter/algorithms/slidingwindowlog.go:112-121 | the oldest is a member and no member is earlier |
| `WindowLogs.NewestIsGreatest` | ratelimiter/algorithms/slidingwindowlog.go:123-132 | the newest is a member and no member is later |
| `WindowLogs.AnswerIsWellFormed` | ratelimiter/ratelimiter.go:36-56 | the same of the log under any clock, with no duration above W and a log that never outgrows the limit |
| `WindowLogs.ClampIsNearest` | ratelimiter/algorithms/slidingwindowlog.go:96-110 | clamp reports the value of [0, W] nearest to what was computed |
| `WindowLogs.DecidesOnHistory` | ratelimiter/algorithms/slidingwindowlog.go:66-85 | the pruned log answers as the whole history of admissions would |
| `WindowLogs.EveryCallIsExact` | ratelimiter/algorithms/slidingwindowlog.go:55-94 | a call is admitted iff fewer than limit admissions of the whole run lie in (now - W, now] |
| `WindowLogs.LogIsExact` | ratelimiter/algorithms/slidingwindowlog.go:55-94 | the log is the trailing window of all admissions, never longer than limit, and no half-open interval of length W ever holds more than limit |
| `WindowLogs.RetryAfterIsLeast` | ratelimiter/algorithms/slidingwindowlog.go:81-85 | after a denial RetryAfter is exactly the least sufficient wait, and at most W |
| `WindowLogs.ResetAfterIsLeast` | ratelimiter/algorithms/slidingwindowlog.go:87-90 | ResetAfter is positive, at most W, and exactly how long until a silent key's log is empty |
| `WindowLogs.RemainingExact` | ratelimiter/algorithms/slidingwindowlog.go:77-80 | after any call from any state, exactly `remaining` more calls at that instant are admitted |
| `WindowLogs.PollingIsHarmless` | ratelimiter/algorithms/slidingwindowlog.go:55-94 | on a non-decreasing clock, leaving any denied calls out of a run changes no other answer, so no later admission |
| `Expiry.ExpiryIsUnobservable` | ratelimiter/redis/scripts/tokenbucket.lua:57-61 | if every stored state has faded by its deadline, a run in which keys vanish any time after theirs gives the very answers of one that never forgets |
| `TokenBucketScript.Redis.Eval` | ratelimiter/redis/scripts/tokenbucket.lua:18-68 | the script's effect on its hash, time to live and reply; other keys untouched |
| `TokenBucketScript.BucketsMayExpire` | ratelimiter/redis/scripts/tokenbucket.lua:57-61 | the time to live outlives the state: a bucket past it answers as an unseen key |
| `TokenBucketScript.BucketKeysEnd` | ratelimiter/redis/scripts/tokenbucket.lua:57-61 | and no key outlives the moment its bucket is full by more than a second and a millisecond |
| `TokenBucketScript.ForgettingBucketsIsUnobservable` | ratelimiter/redis/scripts/tokenbucket.lua:29-61 | a run in which the key vanishes any time after its time to live gives the answers of one that never forgets |
| `CounterScript.Redis.Eval` | ratelimiter/redis/scripts/slidingwindowcounter.lua:24-116 | the script's effect on its hash, time to live and reply; other keys untouched |
| `CounterScript.CountsMayExpire` | ratelimiter/redis/scripts/slidingwindowcounter.lua:105-109 | the time to live outlives the counts |
| `CounterScript.CountKeysEnd` | ratelimiter/redis/scripts/slidingwindowcounter.lua:105-109 | and no key outlives its call by more than two windows and a second |
| `CounterScript.ForgettingCountsIsUnobservable` | ratelimiter/redis/scripts/slidingwindowcounter.lua:36-109 | the same of the counter script |
| `CounterScript.RetriesAlike` | ratelimiter/redis/scripts/slidingwindowcounter.lua:66-103 | the script's wait is the exact one rounded up by less than a millisecond |
| `CounterScript.ScriptIsCounter` | ratelimiter/redis/scripts/slidingwindowcounter.lua:24-116 | run by run the script is the in-memory counter on a global grid: same state, same answers but for that rounding |
| `CounterScript.ScriptRetrySuffices` | ratelimiter/redis/scripts/slidingwindowcounter.lua:66-103 | after a denial anywhere in a run, the script admits a client that waits its wait or longer, and denies one that waits a millisecond less |
| `LogScript.Redis.Eval` | ratelimiter/redis/scripts/slidingwindowlog.lua:19-69 | the script's effect on its sorted set, time to live and reply; other keys untouched |
| `LogScript.SetsMayExpire` | ratelimiter/redis/scripts/slidingwindowlog.lua:57-59 | the time to live outlives the set |
| `LogScript.SetKeysEnd` | ratelimiter/redis/scripts/slidingwindowlog.lua:57-59 | and no key outlives the moment its log is empty by more than a second and a millisecond |
| `LogScript.ForgettingSetsIsUnobservable` | ratelimiter/redis/scripts/slidingwindowlog.lua:28-59 | the same of the log script |
| `LogScript.ScriptIsLog` | ratelimiter/redis/scripts/slidingwindowlog.lua:19-69 | with unique member ids the sorted set holds the very timestamps of the Go log and every answer is equal, so `clamp` is the identity there |
| `LogScript.ScriptRetryIsLeast` | ratelimiter/redis/scripts/slidingwindowlog.lua:40-46 | after a denial the script's wait is exactly the least sufficient one |
| `LogScript.ScriptRemainingIsExact` | ratelimiter/redis/scripts/slidingwindowlog.lua:32-62 | the i-th later call at the instant of an answer, whatever new ids the calls carry, is admitted iff i < `remaining` |
| `Gateway.HeaderCovers` | gateway/middleware/ratelimit.go:176-191 | the header is at least one second, never less than the wait and less than a second more |
| `Gateway.LogHeaderSuffices` | gateway/middleware/ratelimit.go:170-182 | a client of the log that waits the header's seconds is admitted |
| `Gateway.CounterHeaderSuffices` | gateway/middleware/ratelimit.go:170-182 | a client of the counter that waits the header's seconds is admitted |
| `Gateway.LogScriptHeaderSuffices` | gateway/middleware/ratelimit.go:170-182 | a client of the log script that waits the header's seconds is admitted |
| `Gateway.CounterScriptHeaderSuffices` | gateway/middleware/ratelimit.go:170-182 | a client of the counter script that waits the header's seconds is admitted |
| `Gateway.BucketHeaderSuffices` | gateway/middleware/ratelimit.go:170-182 | a client of the bucket that waits the header's seconds is admitted, except exactly when the wait was truncated to a positive whole number of seconds |
| `BucketHeader.HeaderIsHonoredIff` | gateway/middleware/ratelimit.go:170-191 | on a clock of whole ticks the bucket's header suffices after every denial of every run iff a token accrues in at most a second or interval and a tick's refill have a common divisor of at least capacity |
| `BucketHeader.InMemoryHeaderIsHonoredIff` | gateway/middleware/ratelimit.go:170-191 | for the in-memory bucket: iff interval is a multiple of capacity or a token accrues in at most a second |
| `BucketHeader.ScriptHeaderIsHonoredIff` | ratelimiter/redis/scripts/tokenbucket.lua:26-53 | for the script on Redis's microsecond clock, which runs the same algorithm: the general condition with a tick of a thousand nanoseconds |
| `BucketHeader.ModestBucketsAreHonored` | ratelimiter/redis/scripts/tokenbucket.lua:26-53 | so on that clock the header suffices for every capacity up to a thousand over a whole number of microseconds |
| `BucketHeader.FailsIn` | gateway/middleware/ratelimit.go:170-191 | whenever the condition fails, a run on that clock whose client waits the header's seconds and is denied |
| `Gateway.BucketHeaderCanFallShort` | gateway/middleware/ratelimit.go:184-191 | a run whose client waits the header's one second and is denied |
| `Catalog.Store.Reserve` | services/catalog/store.go:134-216 | the transaction's whole effect on both tables, and its four outcomes in the order the source meets them |
| `Catalog.Store.Release` | services/catalog/store.go:225-276 | the transaction's whole effect, idempotent, with the clamp |
| `Catalog.Store.Commit` | services/catalog/store.go:283-331 | the transaction's whole effect, idempotent, with both clamps |
| `Catalog.Store.AddStock` | services/catalog/store.go:334-349 | the update's effect and its two errors |
| `Catalog.LedgerIsSound` | services/catalog/store.go:134-349 | after any interleaving of calls, reserved is the sum of the reservation rows, 0 <= reserved <= stock, every unit ever held is held, given back or consumed, and stock plus units consumed is what the requests themselves put in: the created stock plus every accepted delta |
| `Catalog.HoldIsGrantedIff` | services/catalog/store.go:134-216 | after any calls, a Reserve is Invalid iff its units are not positive, else NotFound iff the product was never created, else Done without effect if already held, else Done iff that many units are left of what was put in, consumed and held, else Insufficient; nothing but a new hold changes anything |
| `Catalog.SettlingIsExact` | services/catalog/store.go:225-331 | after any calls, Release and Commit are Done iff the product was created, settle exactly the units held without clamping, and are void if none are |
| `Catalog.AddingIsExact` | services/catalog/store.go:334-349 | after any calls, AddStock is Invalid iff its delta is not positive, else NotFound iff the product was never created, else adds exactly the delta |
| `Catalog.PricesAreAsSet` | services/catalog/store.go:70-85 | after any calls, a product has the price it was created with |
| `Catalog.NeverClamps` | services/catalog/store.go:257-319 | neither GREATEST ever clamps |
| `Catalog.SettlingTwiceIsOnce` | services/catalog/store.go:222-282 | release and commit are idempotent, also against each other |
| `Catalog.ReleaseUndoesReserve` | services/catalog/store.go:218-224 | a hold given back leaves both tables as they were |
| `SagaInvariant.SettleMoves` | services/catalog/store.go:225-331 | the first release or commit of a held line settles it, any later one is void, and no other line's fate moves |
| `SagaInvariant.InsertPaymentKeepsAll` | services/payment/payment.go:82-101 | the first payments row for an order keeps every published verdict and every run in progress consistent |
| `SagaInvariant.CloseKeepsAll` | services/orders/store.go:195-229 | once all lines are settled the status change is the one the order's verdict calls for, and keeps everything |
| `SagaSteps.ByProductSorts` | services/orders/store.go:125-143 | the rows read back are the lines inserted, strictly by product id, with the same total |
| `SagaSteps.ReserveKeepsInv` | services/orders/handlers.go:179-199 | a Reserve, heard, lost or never done, keeps the joint invariant |
| `SagaSteps.UndoKeepsInv` | services/orders/handlers.go:241-248 | one release of the rollback keeps it, and never touches another order |
| `SagaSteps.RecordKeepsInv` | services/orders/store.go:61-95 | inserting the order keeps it |
| `SagaSteps.SettlingMoves` | services/orders/saga.go:104-111 | settling a line of a decided order never fails for a missing product and leaves the line with the order's verdict |
| `SagaSteps.SettleKeepsInv` | services/orders/saga.go:104-111 | a Commit or Release in the item loop, even one that takes effect and reports an error, keeps it |
| `SagaSteps.CloseKeepsInv` | services/orders/saga.go:113-126 | the guarded status change keeps it |
| `SagaSteps.StepKeepsInv` | services/orders/saga.go:82-220 | every step of every run, and every crash, delivery and restock, keeps the joint invariant |
| `SagaSteps.RunKeepsInv` | services/orders/saga.go:82-220 | every run from a good state ends in a good state |
| `SagaTheorems.FateIsLedger` | services/catalog/store.go:225-331 | a line's fate is what the ledger records: how often and how much it was held, given back and consumed |
| `SagaTheorems.SagaSafety` | services/orders/saga.go:76-220 | in every reachable state a confirmed order has every line consumed exactly once in full, a cancelled one has every line given back, and no order ever mixes the two |
| `SagaTheorems.StockLeavesOnlyWhenPaid` | services/orders/saga.go:82-135 | stock is consumed only for an order whose recorded payment succeeded, for one of its lines and in its exact quantity |
| `SagaTheorems.ClosingNeverConflicts` | services/orders/saga.go:113-126 | a settling run never meets the opposite final status: the ErrInvalidTransition branches are dead |
| `SagaTheorems.RunExtends` | services/orders/store.go:61-229 | payments rows and messages never change or vanish, an order keeps its lines and total, and its status changes at most once |
| `SagaTheorems.PaymentAgreement` | services/payment/saga.go:51-163 | one row per order for good; every outcome ever published, and every answer of the HTTP route, is that row's, so two outcomes of one order are equal, however often and differently the gateway answered |
| `SagaTheorems.MoneyIsCarried` | services/payment/saga.go:87-133 | the amount of OrderCreated, of the saga's payments row and of PaymentSucceeded is the sum of price times units over the lines as read back |
| `SagaTheorems.RowsAreAnswers` | services/payment/saga.go:80-92 | every payments row records an answer the processor gave about that order and amount: the same verdict and reason |
| `SagaTheorems.ReasonsAreCarried` | services/payment/saga.go:150-158 | a PaymentFailed carries its row's reason, a cancelled order carries it too, or "payment failed" if it is empty, and a confirmed one none |
| `SagaPrices.OrdersAreAtCatalogPrice` | services/orders/handlers.go:152-174 | every line of every order is priced at what the catalog asks for its product, then and ever after |
| `SagaCharges.ProcessorMayBeAskedTwice` | services/payment/payment.go:203-262 | a run in which two overlapping requests for one order both reach the processor |
| `SagaCharges.RetryAfterFailedInsertAsksAgain` | services/payment/payment.go:249-278 | a run in which a charge's insert fails, nothing is under way, and the retry reaches the processor again |
| `SagaCharges.AskedAgainIff` | services/payment/saga.go:63-87 | from any state the processor can be asked about an order in some continuation iff the order has no row or some run has already found none and not yet asked |
| `SagaTheorems.AnnouncedOrdersAreHeld` | services/orders/handlers.go:176-235 | an announced order that payment has not settled has its row, is pending, holds each line in its exact quantity and holds nothing else |
| `SagaRollback.RollbackLeavesTheStranded` | services/orders/handlers.go:176-248 | after the rollback a line is held iff its Reserve took effect and was reported lost or its release did not get through, and the order has a row iff its insert was reported lost |
| `SagaRollback.LostReserveLeavesHold` | services/orders/handlers.go:179-199 | a run whose lost Reserve reply leaves a hold and no row |
| `SagaRollback.MissedReleaseLeavesHold` | services/orders/handlers.go:241-248 | a run whose failed release leaves a hold and no row |
| `SagaRollback.LostRecordLeavesRow` | services/orders/store.go:86-95 | a run whose insert commits and reports an error leaves a row and no hold |
| `SagaRollback.RollbackLeavesNothingIff` | services/orders/handlers.go:176-211 | a completed rollback leaves neither row nor hold iff none of the steps of its own run went wrong that way |
| `SagaRollback.HeardRunsLeaveNothing` | services/orders/handlers.go:176-211 | in particular when its own replies are heard and its own releases get through |
| `SagaAbandoned.OverLeavesExactly` | services/orders/handlers.go:176-248 | however the run of a never-announced order ended, a line is held iff it was stranded or the run was cut off while holding it, and the order has a row iff its insert was reported lost or the run was cut off before announcing it |
| `SagaAbandoned.CreateIsAllOrNothing` | services/orders/handlers.go:176-211 | such an order has neither row nor hold iff none of this happened to its own run, crashes included, whatever other orders do or meet meanwhile |
| `SagaAbandoned.AbandonedForGood` | services/orders/handlers.go:212-231 | what an ended run left behind stays, over every continuation |
| `SagaAbandoned.CrashLeavesHold` | services/orders/handlers.go:179-199 | a run whose crash leaves a hold, no row and nothing under way |
| `SagaProgress.OutstandingNeverRises` | services/orders/saga.go:102-211 | no step of any run increases the lines held plus one while pending of an announced order |
| `SagaProgress.HandlersMakeProgress` | services/orders/saga.go:102-220 | that measure never rises over any run, and is zero for good once a handler run has finished with nil |
| `SagaProgress.SettledIsFinal` | services/orders/store.go:195-229 | the measure is zero exactly when the order has its final status |
| `SagaProgress.SettledForGood` | services/orders/saga.go:113-120 | once it is zero, neither the order nor the fate of any of its lines changes again |
| `SagaProgress.RedeliveryIsIdle` | services/orders/saga.go:76-81 | a redelivered outcome's handler then changes neither orders nor catalog |
| `SagaProgress.NeverStuck` | services/orders/saga.go:137-166 | from every reachable state an announced order can still be settled |
| `Handlers.OthersDoNotLook` | services/orders/saga.go:82-220 | a step of one run is the same wherever another run stands |
| `Handlers.Services.Interfere` | services/orders/saga.go:82-220 | any other runs' steps in between form a run of the step system, leave the caller where it was and overwrite no payments row, message or order line |
| `Handlers.Services.SettleOrder` | services/orders/saga.go:89-134 | load (which may fail), settle line by line, change the status last: a run of the step system; if it ends well the order has its verdict's status and nothing outstanding, and if every call is answered it ends well |
| `Handlers.Services.HandlePaymentSucceeded` | services/orders/saga.go:82-135 | a run of the step system; nil means confirmed with nothing held; nil if every call is answered |
| `Handlers.Services.HandlePaymentFailed` | services/orders/saga.go:167-220 | a run of the step system; nil means cancelled with nothing held; nil if every call is answered |
| `Handlers.Services.UpdateOrderStatus` | services/orders/store.go:195-229 | the guarded update and its four results |
| `Handlers.Services.CatalogSettle` | services/orders/catalog_client.go:94-136 | the call acts or not, and succeeds only if it acted, was answered and the product exists |
| `Handlers.Services.RecordCharge` | services/payment/payment.go:82-101 | inserts at most one row per order; a second insert is refused and changes nothing |
| `Handlers.Services.AskProcessor` | services/payment/payment.go:113-145 | an approval is logged as succeeded without a reason, a refusal as failed with the processor's error |
| `Handlers.Services.SettlePayment` | services/payment/saga.go:63-112 | lookup, charge, insert, reload: what it returns is the order's stored row, whoever inserted it; it asks the processor at most once, about this order and amount; it returns a row if every call is answered |
| `Handlers.Services.HandleOrderCreated` | services/payment/saga.go:51-163 | a run of the step system; nil means the stored row's outcome has been published; nil if every call is answered; the processor is asked at most once, about the announced order and amount |
| `Handlers.Services.ChargeOverHttp` | services/payment/payment.go:207-287 | a run of the step system; every answered caller is shown the stored row; a positive amount is answered if every call is; the processor is asked at most once, about the requested order and amount |
| `Handlers.Services.Validate` | services/orders/handlers.go:121-148 | accepts exactly the valid requests |
| `Handlers.Services.PriceItems` | services/orders/handlers.go:152-174 | one line per requested item, in order, at the catalog's price, and their total; failing, it leaves no trace: 400 only for a product that was never created, 502 only if a call was not answered |
| `Handlers.Services.CatalogReserve` | services/orders/catalog_client.go:86-92 | the call acts or not, and its answer, if any, is the store's |
| `Handlers.Services.CatalogRelease` | services/orders/catalog_client.go:94-99 | the call acts or not |
| `Handlers.Services.ReserveItems` | services/orders/handlers.go:176-199 | holds every line or rolls back; with replies heard a failure leaves no trace; 409 only if at some moment of the run less was available than a line asks for, 502 only if a call was not answered |
| `Handlers.Services.ReleaseAll` | services/orders/handlers.go:241-248 | releases what was held; with releases getting through nothing of the order stays held, and no order row is touched |
| `Handlers.Services.InsertOrder` | services/orders/store.go:61-95 | the order and its items are inserted together or not at all; an empty order is refused |
| `Handlers.Services.RecordAndAnnounce` | services/orders/handlers.go:201-234 | the row before the announcement; failing to insert rolls back; submitted if every call is answered |
| `Handlers.Services.CreateOrder` | services/orders/handlers.go:108-234 | a run of the step system; an invalid request changes nothing; success means a row with exactly the requested items and an announcement with the row's total; any earlier failure, with replies heard, leaves neither row nor hold; 400 only for an invalid request or a product never created, 409 only if stock ran short on the way; if every call is answered, nothing but these two keeps a request from being submitted |

## Left out

- Floating point: both limiters compute in float64 and the scripts store decimal strings; the model is exact, so rounding (and `tostring` of stored token counts) is not captured.
- Integer width: Go's int and int64 are unbounded here.
- Redis windows that are not a positive whole number of milliseconds.
- Clocks that go backwards, for the theorems about the two window algorithms; their methods model that branch, and the token bucket theorems hold under any clock, but for
  `EnvelopesInRealTime` and `PollingIsHarmless`.
- The limiters' mutexes and the atomicity of Redis scripts: each call is one atomic step.
- The Kafka client and consumer offsets: delivery is arbitrary, which covers at-least-once; no claim that a message is ever redelivered.
- Payloads that do not decode, and envelope fields other than order, amount and reason.
- Order currency, user ids, SKUs, descriptions and timestamps; product and order ids are integers, and the order of product ids is that of integers.
- Direct client calls to the reservation routes, and reserving a line again after it was settled: order ids are fresh and each line is reserved once, as createOrder does.
- CatalogSettle: the two HTTP error kinds are one, since the handlers do not tell them apart.
- A payments insert that fails for another reason than the unique index has no effect of its own; it is the unreached reply.
- Agreement of an HTTP charge's own amount with its order: that route records whatever amount it is given.
- Catalog reads, listings, order reads by users, JWT, correlation ids, logging, metrics, proxying, the auth service, migrations tooling and load scripts.
