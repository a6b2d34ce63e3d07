# finpipe rate control, caches, chunking and settings: a verified model

This project models the stateful core of finpipe in Dafny and proves what that core is relied on
for. Each module follows one source component; `dafny verify dfyconfig.toml` checks all of them.

| module | component |
|---|---|
| `AdaptiveLimiter`, `Aimd`, `ProviderLimits` | the adaptive limiter that books ahead, its rate controller, the documented caps |
| `LlmLimiter`, `LlmEvents`, `LlmFairness` | the dual RPM/TPM bucket with after-the-fact corrections, its promises over what callers did, and fairness |
| `CongestionBucket` | the polling token bucket with congestion backoff |
| `ConcurrencyGate` | the condition-variable gate whose limit follows the adaptive rate |
| `ResilientClient` | the HTTP client as an object, and one request driving it |
| `ClientRuns`, `ClientResponses`, `ClientProgress`, `ClientBursts` | any number of requests interleaving: what is kept, what responses lead to, that all of them end, what is not promised |
| `TimedCaches`, `CacheRegistry` | the two cache backends, and the registry that shares them |
| `Texts`, `Chunking` | the string operations used, and splitting a text for compression, and the chunk-by-chunk fallback |
| `Settings` | the recursive settings merge and the legacy-settings migration |
| `Ledger`, `Counting`, `RealMath`, `Options` | the shared argument about charges over a window, counting and adding up, arithmetic on reals, optional values |

## How the model is built

Objects that change state in the source are classes here, with the same fields, loops and branches.
Every state-changing method equates the new state with a step function of the old one; the promises are
proved about that step function, over every run, and every interleaving where there is concurrency. What a step
leaves behind is also stated without the step function: by what a second caller then finds, by the events of a run
rather than its log, by the response that came.

* **The adaptive limiter** takes a token without looping, and pushes `last_refill` ahead of the clock when there is
  none. Both branches satisfy one recurrence, so the limiter *is* the first-come-first-served
  ideal bucket: each caller gets the earliest instant at which a bucket refilled at the current rate
  holds one token. The cap over every window follows from a ledger that accounts each charge at the hard cap.
* **The ledger** (`Ledger`) is used by all three buckets: an entry may leave at most what the previous entry left,
  plus the refill since, minus its charge. Over any window the charges telescope to capacity plus rate times
  time. Corrections are charges of either sign, so a level below zero and a refund clipped at capacity need no case of their own.
* **The gate** is a monitor of tasks that are away, ready, asleep or holding. Its safety, freedom from deadlock and
  lost wakeups, and bounded work are facts about all interleavings with arbitrary rate changes.
* **The client** interleaves limiter, second limiter, gate, breaker, retries and corrections. Each of its steps is
  shown to be a step of the gate or to leave it alone, so the gate's theorems carry over.

Assumptions: numbers are exact reals; the monotonic clock does not go back; a sleep lasts at least as long as requested;
a lock body is one atomic step; one writer per row of the rate table; configuration values have passed
validation (positive caps, RPM and TPM at least 1). cachetools, pybreaker and tenacity
behave as documented: eviction of the least recently used key, a breaker that may refuse an attempt before
any limit is taken, and a stop after the given number of attempts.

## What the code does not do

Where the code and its documentation, or what one might expect, part ways, the model follows the code, and a lemma
says exactly when the expectation holds.

* The hard cap bounds the fill rate. A window of grants admits up to 10 more, and reaches that (`AdaptiveLimiter.WindowBoundIsTight`).
  After a grant the bare cap, which `docs/architecture.md:1154` and `:1202` promise ("never exceeded", "no burst"), holds
  whatever follows exactly when that grant emptied the bucket (`AdaptiveLimiter.BareCapIffNothingLeft`).
* Calls may wait after their grant and bunch. The calls of a window are bounded by 10, the cap, and the grants carried into it
  (`ClientRuns.CallsInWindow`); that is met with equality for every cap and any number carried (`ClientBursts.CallsCanBunch`).
* `learned_max` is fixed at start-up: there is no success histogram and no recalculation after a 429, which
  `docs/architecture.md:1156` and `:1200-1201` describe. `Aimd.SignalKeepsValid` states that no signal moves it.
* The gate is not woken when the limit rises. The one step that leaves a task asleep beside a free slot is a rise past the
  holders (`ConcurrencyGate.IdleSlotIffStrands`, `ConcurrencyGate.NeverIdleIffNeverStrands`), the next release mends it, and it
  can happen in every configuration whose hard cap has room for two (`ConcurrencyGate.NoIdleSlotIffRoomForOneOnly`).
* The congestion bucket keeps its target in every run exactly when the target is at least 0.1 per second, that is for at least
  6 requests per minute (`CongestionBucket.TargetHoldsIffAtLeastFloor`). In runs without a backoff it keeps every target
  (`CongestionBucket.TargetHoldsWithoutBackoff`); nothing under `src/` triggers a backoff.
* The dual bucket is fair under no configuration and to no request (`LlmFairness.NoConfigurationIsFair`): a request that waits
  exactly as told passes behind a rival exactly when the rival is refused or leaves enough of both tokens
  (`LlmFairness.PassesBehindRivalIff`). One larger than the whole bucket polls for ever (`LlmLimiter.OversizedNeverSuffices`).
* Two cache configurations are identified exactly when path and namespace read alike when joined (`CacheRegistry.IdentityIff`), so colons in
  a namespace can make two database files share one backend (`CacheRegistry.ColonsCollide`).
* The SQLite cache reads the wall clock. Over every sequence of operations lazy deletion shows exactly when a key is read at or before
  its expiry after it was already found expired (`TimedCaches.ClockSetBackShows`).
* `_chunk_text` keeps the text exactly for a positive `max_words`; zero raises, a negative one loses every word (`Chunking.ChunkText`).
* Merging layers is not associative in general; `Settings.AssociativeIffGroupable` says exactly when it is. Loading the same legacy
  settings from a file and from a dictionary differs; `Settings.OrdersAgreeExactly` says exactly when.
* A session under a lower cap forgets a higher learned rate, whatever it sees (`Aimd.LowerCapForgets`).

## Model

| member | source | states |
|---|---|---|
| `ProviderLimits.GetHardCapRps` | src/_internal/limits.py:32-51 | the cap in force is the smaller of the configured and the documented one, a sixtieth of a documented per-minute limit, and stays positive |
| `AdaptiveLimiter.GrantIffEarliest` | src/network/limiter.py:206-220 | the booked instant is the one and only earliest instant, not before the caller or the previous grant, at which the ideal bucket holds a token |
| `AdaptiveLimiter.BookingIsGrant` | src/network/limiter.py:209-218 | both branches of `acquire`, with an elapsed time of either sign, land on that instant and on the level left there |
| `AdaptiveLimiter.GrantInstant` | src/network/limiter.py:209-218 | a grant falls at the latest of caller, previous grant and refill of one token, and leaves between 0 and 9 tokens |
| `AdaptiveLimiter.BookedCallersAreSpaced` | src/network/limiter.py:215-218 | callers that find the bucket booked ahead are spaced exactly 1/rate |
| `AdaptiveLimiter.GrantIsPaidFor` | src/network/limiter.py:209-218 | each grant is covered by the level before plus the refill at the hard cap, whatever the rate |
| `AdaptiveLimiter.StepKeepsInv` | src/network/limiter.py:206-240 | every acquire, success and 429 keeps the ledger, the rate range, and "booked ahead implies no tokens" |
| `AdaptiveLimiter.ExecuteKeepsInv` | src/network/limiter.py:206-240 | so does every run of them, and grants once made are never rewritten |
| `AdaptiveLimiter.GrantsInWindow` | src/network/limiter.py:206-220 | in any reachable state, grants i..j number at most 10 + hard_cap times the window, and grant times do not go back |
| `AdaptiveLimiter.GrantsSinceOpening` | src/network/limiter.py:160-161 | the first j grants fit in 10 + hard_cap times the time since the limiter was built |
| `AdaptiveLimiter.HardCapOverEveryWindow` | src/network/limiter.py:136-240 | from a fresh limiter, in every interleaving of calls, successes and 429s, every window of grants fits in 10 + hard_cap times the window |
| `AdaptiveLimiter.BurstSchedule` | src/network/limiter.py:206-220 | n simultaneous callers of any bucket, idle, partly filled or booked ahead: exactly those it holds tokens for pass at once, the others 1/rate apart, and what is left |
| `AdaptiveLimiter.OpeningBurst` | src/network/limiter.py:160-161 | from a fresh limiter ten callers pass at once and caller k > 10 after (k - 10)/rate |
| `AdaptiveLimiter.WindowBoundIsTight` | src/network/limiter.py:149 | a burst of n >= 10 callers at the cap meets the window bound with equality |
| `AdaptiveLimiter.GrantsAfter` | src/network/limiter.py:209-218 | grants after any grant number at most the tokens it left plus hard_cap times the time since |
| `AdaptiveLimiter.LeftoverBreaksBareCap` | src/network/limiter.py:209-233 | from every state with tokens left, successes and one more call exceed the bare cap |
| `AdaptiveLimiter.BareCapIffNothingLeft` | src/network/limiter.py:206-240 | whatever follows a grant keeps to hard_cap times the time since it, with no burst, if and only if it left no token |
| `AdaptiveLimiter.AdaptiveRateLimiter.constructor` | src/network/limiter.py:139-165 | rate and learned_max start from the clamped stored or initial rate, the bucket full, the start rate stored |
| `AdaptiveLimiter.AdaptiveRateLimiter.LoadRate` | src/network/limiter.py:182-190 | a stored rate wins over the default, either clamped to the range of the cap |
| `AdaptiveLimiter.AdaptiveRateLimiter.SaveRate` | src/network/limiter.py:192-204 | the row of this namespace becomes the live rate, other rows stay |
| `AdaptiveLimiter.AdaptiveRateLimiter.Acquire` | src/network/limiter.py:206-220 | the caller may proceed at the earliest ideal instant, exactly one grant is recorded, the invariant is kept |
| `AdaptiveLimiter.AdaptiveRateLimiter.Book` | src/network/limiter.py:207-220 | the two fields written are the ideal bucket after its grant, and now + wait is the grant instant |
| `AdaptiveLimiter.AdaptiveRateLimiter.RecordSuccess` | src/network/limiter.py:222-233 | exactly when the rate rises, by 0.5 up to the cap; the streak counts on or starts over; the stored rate is the live rate again |
| `AdaptiveLimiter.AdaptiveRateLimiter.RecordTooMany` | src/network/limiter.py:235-240 | the streak ends, the rate is three quarters but not below the floor, the stored rate is the live rate again |
| `Aimd.SignalKeepsValid` | src/network/limiter.py:167-168 | min_rate <= rate, learned_max <= hard_cap is kept; 50 straight successes are possible only at the cap; a success never lowers the rate, a 429 never raises it |
| `Aimd.ReplayKeepsValid` | src/network/limiter.py:222-240 | so through every history of signals, with cap and learned_max unmoved |
| `Aimd.ClimbAtLeast` | src/network/limiter.py:222-233 | every 50 consecutive successes raise the rate by at least 0.5 or reach the cap |
| `Aimd.ClimbExact` | src/network/limiter.py:222-233 | from learned_max up the climb is exactly one step per 50 successes |
| `Aimd.FastRecovery` | src/network/limiter.py:224 | below learned_max every single success adds a step, clamped at the cap and not at learned_max |
| `Aimd.ReachesCapExactly` | src/network/limiter.py:222-233 | the cap is reached after 50 * ceil((cap - rate) / 0.5) successes, and from learned_max up not one sooner |
| `Aimd.BackoffsExact` | src/network/limiter.py:235-240 | k consecutive 429s give exactly max(min_rate, rate * 0.75^k) |
| `Aimd.TooManyAfter` | src/network/limiter.py:235-238 | after any history a 429 ends the streak and brings the rate to max(min_rate, 3/4 of it) |
| `Aimd.StreakStartsOver` | src/network/limiter.py:222-240 | after any history and a 429, n successes climb from nothing: no success before the 429 is credited |
| `Aimd.FirstStart` | src/_internal/aimd.py:16-18 | with no stored row the rate starts at one per second, or at a lower cap |
| `Aimd.StoredRateInRange` | src/network/limiter.py:155-158 | after any sessions under any caps the stored rate is positive and in the range of the last cap |
| `Aimd.RestartRestoresRate` | src/network/limiter.py:182-204 | a restart under the same cap resumes exactly at the last rate; learned_max becomes that rate and the streak restarts |
| `Aimd.DetourLeaves` | src/network/limiter.py:155-158 | the rate a session under a lower cap leaves for the next one, for all its signals |
| `Aimd.LowerCapForgets` | src/network/limiter.py:182-190 | every session under a lower cap, whatever signals it sees, loses the learned rate if and only if that was above the lower cap and the floor |
| `LlmLimiter.DeficitIsExact` | src/network/limiter.py:107-116 | one bucket's wait is the least delay after which it suffices |
| `LlmLimiter.WaitIsExact` | src/network/limiter.py:99-117 | if nobody else takes, both buckets suffice after a delay if and only if it is at least the computed wait |
| `LlmLimiter.OversizedNeverSuffices` | src/network/limiter.py:92-101 | a request above tpm is refused in every state at every time |
| `LlmLimiter.PauseSuffices` | src/network/limiter.py:97-119 | a poll after the computed wait is granted exactly when the request fits tpm |
| `LlmLimiter.SettleKeepsInv` | src/network/limiter.py:99-127 | grants and corrections of either sign keep both ledgers, 0 <= req_tokens <= rpm, and one request token per token grant |
| `LlmLimiter.StepKeepsInv` | src/network/limiter.py:95-127 | so does every whole lock body, refill included |
| `LlmLimiter.ExecuteKeepsInv` | src/network/limiter.py:95-127 | so does every run of polls and corrections in any order |
| `LlmLimiter.TotalByKind` | src/network/limiter.py:121-127 | charges less what corrections gave back are the net charges of the ledger |
| `LlmLimiter.GrantLeaves` | src/network/limiter.py:98-106 | a granted acquire takes max(1, tokens) and one request out of the refilled levels; a refused one takes nothing |
| `LlmLimiter.CorrectionMovesLevel` | src/network/limiter.py:121-127 | a correction adds expected - actual to the refilled level, clipped at tpm, and leaves requests alone |
| `LlmLimiter.CorrectionChargesActual` | src/network/limiter.py:95-127 | from every state, a granted estimate corrected at once leaves what a charge of the actual usage alone would have left, clipped at tpm |
| `LlmLimiter.SecondPassesIff` | src/network/limiter.py:98-106 | from every state, a second request passes at the same instant if and only if both fit the level and two request tokens are there |
| `LlmLimiter.BurstPassesIff` | src/network/limiter.py:66-81 | n one-token requests pass a fresh limiter at once if and only if n is within tpm and rpm |
| `LlmLimiter.WaitInMinutes` | src/network/limiter.py:70-75 | missing tokens take 60/tpm seconds each, a missing request 60/rpm |
| `LlmEvents.LogTellsEvents` | src/network/limiter.py:95-127 | in every run the charges add up to what the granted acquires asked for, the returns to the sum of (expected - actual) over the corrections made |
| `LlmEvents.TokensPerMinute` | src/network/limiter.py:83-127 | over any stretch of events of any run, up to a granted acquire: asked for, less the sum of (expected - actual), at most tpm + tpm/60 per second |
| `LlmEvents.RequestsPerMinute` | src/network/limiter.py:95-106 | over any stretch of events of any run the granted acquires number at most rpm + rpm/60 per second |
| `LlmLimiter.TokensInWindow` | src/network/limiter.py:83-127 | up to any grant, estimates minus the sum of (expected - actual) are at most tpm + tpm/60 per second |
| `LlmLimiter.RequestsInWindow` | src/network/limiter.py:95-106 | requests in any window are at most rpm + rpm/60 per second |
| `LlmLimiter.LimitsHoldInEveryRun` | src/network/limiter.py:63-127 | both per-minute promises together, for every run of a fresh limiter |
| `LlmFairness.PassesAlone` | src/network/limiter.py:97-119 | in every state a request that waited as told passes, if nobody comes first, exactly when it fits tpm |
| `LlmFairness.PassesBehindRivalIff` | src/network/limiter.py:97-119 | in every state it passes behind a rival if and only if the rival was refused or left its tokens and a request token |
| `LlmFairness.OvertakerOvertakes` | src/network/limiter.py:97-119 | in every state there is a rival that fits, is granted, and leaves it refused |
| `LlmFairness.AnyRequestStarves` | src/network/limiter.py:97-119 | any fitting request that sleeps exactly its computed wait each time can be overtaken any number of times, under all limits and from every state |
| `LlmFairness.NoConfigurationIsFair` | src/network/limiter.py:63-119 | no number of rounds lets a request through for sure, for every configuration and every fitting request |
| `LlmLimiter.EstimateLlmTokenUsage` | src/network/limiter.py:130-133 | the completion limit, at least 1, plus the whole number of four-character groups of the prompt, at least 1 |
| `LlmLimiter.RpmTpmRateLimiter.constructor` | src/network/limiter.py:66-81 | both buckets start full, the request bucket only if rpm is given |
| `LlmLimiter.RpmTpmRateLimiter.Refill` | src/network/limiter.py:83-93 | both levels grow with the elapsed time, clipped at capacity |
| `LlmLimiter.RpmTpmRateLimiter.TakeBoth` | src/network/limiter.py:100-106 | one request token and the whole amount are taken together, or nothing is |
| `LlmLimiter.RpmTpmRateLimiter.WaitFor` | src/network/limiter.py:107-117 | the wait is the larger deficit, and positive exactly when the poll was refused |
| `LlmLimiter.RpmTpmRateLimiter.TryAcquire` | src/network/limiter.py:98-117 | one turn of the loop is one step of the run, granted exactly when both refilled buckets suffice, and what it leaves in both |
| `LlmLimiter.RpmTpmRateLimiter.PollAgain` | src/network/limiter.py:118-119 | the poll after an undisturbed sleep is granted exactly when the request fits |
| `LlmLimiter.RpmTpmRateLimiter.AcquireAlone` | src/network/limiter.py:95-119 | uncontended: granted after at most one sleep when it fits, still looping with nothing taken when it does not |
| `LlmLimiter.RpmTpmRateLimiter.UpdateActualTokens` | src/network/limiter.py:121-127 | nothing if equal; else the refilled level plus expected less actual, clipped at tpm and possibly below zero |
| `CongestionBucket.StepKeepsInv` | src/network/limiter.py:33-56 | polls of any amount keep the rate and the ledger within any accounting rate from the target up; a backoff within those from 0.1 up |
| `CongestionBucket.ExecuteKeepsInv` | src/network/limiter.py:33-56 | so does every run |
| `CongestionBucket.AmountsInWindow` | src/network/limiter.py:33-53 | amounts granted in any window are at most capacity + rate times the window, for every accounting rate kept |
| `CongestionBucket.TargetHoldsWithoutBackoff` | src/network/limiter.py:33-53 | in runs without a backoff rate and windows keep to every target, however small |
| `CongestionBucket.TargetHoldsIffAtLeastFloor` | src/network/limiter.py:55-56 | in every run rate and windows keep to the target, if and only if the target is at least 0.1 |
| `CongestionBucket.StuckAtFloor` | src/network/limiter.py:37-42 | below the floor, one backoff raises the rate to 0.1 for good |
| `CongestionBucket.FloorBreaksWindow` | src/network/limiter.py:55-56 | for every smaller target, a run whose window exceeds what the target allows |
| `CongestionBucket.RecoveryIsCompound` | src/network/limiter.py:37-43 | n grants without a backoff bring the rate to min(target, rate * 1.05^n), whatever polls fail between them |
| `CongestionBucket.SleepIsExact` | src/network/limiter.py:44-46 | the sleep is the least delay after which the bucket suffices, and none does if the amount exceeds the capacity |
| `CongestionBucket.SecondPassesIff` | src/network/limiter.py:35-43 | from every state, a second poll passes at the same instant if and only if both amounts fit the replenished level |
| `CongestionBucket.BurstPassesIff` | src/network/limiter.py:35-43 | from every state, n one-token polls pass at one instant if and only if n is within the level, and leave exactly the rest |
| `CongestionBucket.OpeningBurst` | src/network/limiter.py:25-31 | a fresh limiter lets exactly as many pass at once as its capacity holds |
| `CongestionBucket.RefusalTakesNothing` | src/network/limiter.py:35-46 | a refused poll replenishes and changes nothing else |
| `CongestionBucket.BackoffsExact` | src/network/limiter.py:55-56 | k backoffs give exactly max(0.1, rate * 0.5^k) and leave level and log alone |
| `CongestionBucket.TokenBucketRateLimiter.constructor` | src/network/limiter.py:25-31 | the bucket starts full at the target rate; its capacity defaults to the rate |
| `CongestionBucket.TokenBucketRateLimiter.Replenish` | src/network/limiter.py:48-53 | the level grows with elapsed time at the current rate, clipped at capacity |
| `CongestionBucket.TokenBucketRateLimiter.TryAcquire` | src/network/limiter.py:35-45 | granted exactly when the replenished level suffices, which then is lower by the amount; a refusal takes nothing and returns the exact sleep |
| `CongestionBucket.TokenBucketRateLimiter.AcquireAlone` | src/network/limiter.py:33-46 | uncontended: granted after at most one sleep exactly when the amount fits the bucket |
| `CongestionBucket.TokenBucketRateLimiter.TriggerCongestionBackoff` | src/network/limiter.py:55-56 | halves the rate down to 0.1, which stays within the target exactly when the target is at least 0.1 |
| `ConcurrencyGate.StepKeepsInv` | src/network/concurrency.py:23-32 | active_tasks is the number of holders, at most the limit at the hard cap; a sleeper implies a holder |
| `ConcurrencyGate.RunsKeepInv` | src/network/concurrency.py:23-40 | so in every interleaving of any number of tasks with any rate changes |
| `ConcurrencyGate.LimitAtMostCapLimit` | src/network/concurrency.py:20-21 | 1 <= limit <= max(1, int(hard_cap * multiplier)), for a multiplier of either sign |
| `ConcurrencyGate.AdmittedIffBelowLimit` | src/network/concurrency.py:25-27 | a slot is taken exactly when the holders are below the limit of that instant |
| `ConcurrencyGate.SomeoneCanWork` | src/network/concurrency.py:23-32 | no deadlock: while anybody is unfinished, some check or release can happen |
| `ConcurrencyGate.WorkIsBounded` | src/network/concurrency.py:23-32 | without new arrivals every run does a bounded number of checks and releases, however the rate moves |
| `ConcurrencyGate.EveryoneIsServed` | src/network/concurrency.py:23-32 | no lost wakeup: a run with no work left has served every task |
| `ConcurrencyGate.ReachableHasInv` | src/network/concurrency.py:14-32 | every state reachable from an empty gate is safe |
| `ConcurrencyGate.IdleSlotIffStrands` | src/network/concurrency.py:25-32 | from any safe state, a step leaves a task asleep beside a free slot if and only if it raises the limit past the holders while somebody sleeps; a release always mends it |
| `ConcurrencyGate.NeverIdleIffNeverStrands` | src/network/concurrency.py:23-32 | so over whole runs: nobody ever sleeps beside a free slot if and only if no step of the run is such a rise |
| `ConcurrencyGate.RaisedLimitWakesNobody` | src/network/concurrency.py:26 | for every configuration with room for two, a reachable state with a sleeper beside a free slot |
| `ConcurrencyGate.NoIdleSlotIffRoomForOneOnly` | src/network/concurrency.py:20-32 | a configuration never lets a task sleep beside a free slot if and only if its hard cap has room for one only |
| `ConcurrencyGate.DynamicConcurrencyLimiter.constructor` | src/network/concurrency.py:14-18 | the gate starts empty |
| `ConcurrencyGate.DynamicConcurrencyLimiter.Poll` | src/network/concurrency.py:25-27 | one turn of the wait loop is the check step |
| `ConcurrencyGate.DynamicConcurrencyLimiter.GetDynamicLimit` | src/network/concurrency.py:20-21 | the largest whole number not above rate times multiplier, or 1 if that is smaller |
| `ConcurrencyGate.DynamicConcurrencyLimiter.Release` | src/network/concurrency.py:29-32 | gives the slot back and wakes every sleeper |
| `ClientRuns.StepRefinesGate` | src/network/resilience.py:190-200 | every step of the client is a step of the gate or leaves the gate alone |
| `ClientRuns.StepKeepsInv` | src/network/resilience.py:163-230 | every step keeps the limiters' invariants, the gate's, and the accounts of grants, charges, calls and attempts |
| `ClientRuns.RunsKeepInv` | src/network/resilience.py:163-230 | so in every interleaving of any number of requests |
| `ClientRuns.CallsInWindow` | src/network/resilience.py:163-200 | calls in any window are at most the grants due in it plus those carried into it, hence 10 + hard_cap times the window + the carried ones |
| `ClientRuns.CallsByTime` | src/network/resilience.py:190-193 | calls made by an instant are at most the grants due by then, hence 10 + hard_cap times the time so far |
| `ClientRuns.CallRateRespectsCap` | src/network/resilience.py:163-230 | that bound on prefixes for every run of a fresh client at every instant |
| `ClientRuns.CallWindowsRespectCap` | src/network/resilience.py:163-230 | the bound on windows for every run of a fresh client and every window |
| `ClientRuns.SecondLimitIsKept` | src/network/resilience.py:112-124 | in every interleaving the configured RPM and TPM limits stay as they were and are kept over every window of grants, and RPM by the transport calls themselves |
| `ClientRuns.CallsPerRequest` | src/network/resilience.py:205-216 | a request makes at most max(1, max_retries) calls |
| `ClientRuns.NothingLeaks` | src/network/resilience.py:190-200 | slots are the calls in progress; at rest none is taken, every adaptive grant was used for exactly one call, and every charge of the second limiter too |
| `ClientResponses.RateHearsResponses` | src/network/resilience.py:194-199 | through every interleaving the rate controller hears exactly the 429s and successes, in the order they came |
| `ClientResponses.TooManyOnlyRun` | src/network/resilience.py:194-196 | a run with k 429s and no success, whatever else fails in it, ends at exactly max(min_rate, rate * 0.75^k) |
| `ClientResponses.NoTooManyRun` | src/network/resilience.py:194-199 | a run without a 429 never lowers the rate |
| `ClientResponses.ReleaseDecides` | src/network/resilience.py:205-230 | by response and attempts left: which attempts are retried and how the others end |
| `ClientResponses.OutcomeTellsCalls` | src/network/resilience.py:205-230 | a request that ended as rate-limited made exactly max(1, max_retries) calls; a delivered or propagated one made some |
| `ClientResponses.ClearCharges` | src/network/resilience.py:165-169 | a pass charges the estimate, at least 1 and 1 without one, to a token limit, and one request to a request limit |
| `ClientResponses.ReconcileMovesLevel` | src/network/resilience.py:171-173 | a correction adds expected - actual to the refilled token level, clipped at tpm |
| `ClientProgress.SecondGrantsLater` | src/network/resilience.py:163-169 | an instant always exists at which the second limiter lets a fitting request pass |
| `ClientProgress.SomeoneCanMove` | src/network/resilience.py:163-230 | while a request is in flight, some request in flight can take a step that moves it on |
| `ClientProgress.MoveIsWork` | src/network/resilience.py:190-216 | every step that moves a request on uses up work, a release more than all the wake-ups it causes |
| `ClientProgress.WorkIsBounded` | src/network/resilience.py:182-230 | apart from refused polls and corrections, n requests of m attempts make at most n * (m * (n + 6) + 1) steps, in any interleaving |
| `ClientProgress.EveryoneFinishes` | src/network/resilience.py:182-230 | a run after which no request can move has finished them all |
| `ClientBursts.CallsCanBunch` | src/network/resilience.py:190-193 | under every cap and for every n, a reachable state in which n + 10 calls start at one instant into which n grants were carried, which meets the bound on windows with equality |
| `ResilientClient.ResilientHttpClient.constructor` | src/network/resilience.py:111-124 | which second limiter is built from which configuration, and with what capacity and rate |
| `ResilientClient.ResilientHttpClient.AcquireLimits` | src/network/resilience.py:163-169 | one adaptive grant, passed by the time of return, then one grant of the second limiter if there is one; it never passes exactly when the estimate does not fit |
| `ResilientClient.ResilientHttpClient.PassSecond` | src/network/resilience.py:165-169 | exactly one grant of the configured second limiter, of the estimate or of 1, or none and still polling when the estimate does not fit |
| `ResilientClient.ResilientHttpClient.ReconcileTokenUsage` | src/network/resilience.py:171-173 | adds expected - actual to the refilled token level of the dual bucket, and changes nothing in the simple one |
| `ResilientClient.ResilientHttpClient.ReportResponse` | src/network/resilience.py:194-199 | by response: a 429 lowers the rate to three quarters and ends the streak, a success is a success signal, any other failure changes nothing |
| `ResilientClient.ResilientHttpClient.TakeSlot` | src/network/resilience.py:192 | a slot at once if there is room beside the holders, sleep if not |
| `ResilientClient.ResilientHttpClient.CallInSlot` | src/network/resilience.py:192-200 | the slot is held while the response is reported, freed on every exit, and all sleepers are woken |
| `ResilientClient.ResilientHttpClient.MakeRequest` | src/network/resilience.py:190-200 | one attempt: how far it gets, what it uses up, and that no slot stays taken |
| `ResilientClient.ResilientHttpClient.TryOnce` | src/network/resilience.py:205-216 | one turn of the retry loop: one more attempt, or the stop and its reason |
| `ResilientClient.ResilientHttpClient.Request` | src/network/resilience.py:182-230 | with any holders and sleepers at the gate: where the retry loop stops, with which outcome, after how many calls, and the grants, rate and slots it leaves behind |
| `TimedCaches.ReadsLastWrite` | src/network/cache.py:30-42 | the timed map told from the operations alone: a read answers the last write of its key, up to and at ttl after it, and nothing otherwise |
| `TimedCaches.LazyStep` | src/network/cache.py:90-123 | one operation answers as the timed map and keeps the table equal to it but for expired rows |
| `TimedCaches.TableIsTimedMap` | src/network/cache.py:90-123 | on a forward clock the SQLite table answers every sequence as the timed map |
| `TimedCaches.ClockSetBackShows` | src/network/cache.py:90-121 | for every table and every sequence of operations at any instants: table and timed map answer differently if and only if a key found expired, and not written since, is read at or before its expiry |
| `TimedCaches.LruStepKeepsInv` | src/network/cache.py:30-42 | the order lists exactly the keys held, each once, never more than maxsize |
| `TimedCaches.LruRunKeepsInv` | src/network/cache.py:24-42 | so after every sequence of operations |
| `TimedCaches.HitsAreLatest` | src/network/cache.py:30-42 | every in-memory hit is the latest stored value, unexpired, on any clock |
| `TimedCaches.BackendsAgree` | src/network/cache.py:24-123 | on one operation sequence every in-memory hit is a SQLite hit with the same value |
| `TimedCaches.OtherKeyPushesBack` | src/network/cache.py:28-42 | an operation on another key puts only that key behind, and never evicts a recent enough key |
| `TimedCaches.RecentKeyStays` | src/network/cache.py:28-42 | a key stays with its value while fewer than maxsize other keys are touched, whatever is done to them |
| `TimedCaches.TouchedKeyIsHit` | src/network/cache.py:30-42 | after a write or a hit, a later read answers as the timed map under that condition |
| `TimedCaches.SurvivesIffFewerThanMaxsize` | src/network/cache.py:28 | the condition is exact: maxsize writes of other keys do evict |
| `TimedCaches.InMemoryTtlCache.Get` | src/network/cache.py:30-38 | answers the unexpired value, touches it, or deletes the expired entry |
| `TimedCaches.InMemoryTtlCache.Set` | src/network/cache.py:40-42 | stores under a fresh expiry, evicting only for a new key; refused when maxsize is below 1 |
| `TimedCaches.SqliteCacheBackend.Get` | src/network/cache.py:90-102 | answers the unexpired row or deletes the expired one |
| `TimedCaches.SqliteCacheBackend.Set` | src/network/cache.py:107-121 | inserts the row or replaces value and expiry |
| `TimedCaches.SqliteCacheBackend.Close` | src/network/cache.py:142-146 | closing loses no row |
| `CacheRegistry.IdentityIff` | src/network/cache_manager.py:17-20 | exactly when two configurations get one identity |
| `CacheRegistry.PathDecides` | src/network/cache_manager.py:19 | a given, non-empty sqlite_path decides the identity whatever sqlite_db_path says; otherwise sqlite_db_path does |
| `CacheRegistry.ColonsCollide` | src/network/cache_manager.py:20 | different database files and namespaces with one identity |
| `CacheRegistry.CacheManager.GetShared` | src/network/cache_manager.py:22-39 | who gets the registered backend, who a fresh one, and who an error that registers nothing |
| `CacheRegistry.CacheManager.Shutdown` | src/network/cache_manager.py:41-47 | closes every registered backend and forgets them all |
| `CacheRegistry.SharingUntilShutdown` | src/network/cache_manager.py:11-47 | one identity shares one open backend until a shutdown, and gets a different one after it |
| `Texts.WordsSplitAtSpace` | src/core/llm_compress.py:26 | splitting at white space distributes over text joined by it |
| `Texts.StripKeepsWords` | src/core/llm_compress.py:20 | stripping keeps the words and empties exactly the blank lines |
| `Texts.StripTrims` | src/core/llm_compress.py:20 | stripping takes all white space off both ends and nothing else |
| `Texts.LinesJoinBack` | src/core/llm_compress.py:20 | the lines of a text hold no newline and joined by newlines give it back |
| `Texts.JoinKeepsWords` | src/core/llm_compress.py:28 | joining by newline or space keeps the words of the parts in order |
| `Texts.JoinedWords` | src/core/llm_compress.py:33-35 | words joined by a space split back into the same words |
| `Chunking.ParagraphsKeepWords` | src/core/llm_compress.py:20 | the paragraphs hold the words of the text, in order, and none is empty |
| `Chunking.CutLong` | src/core/llm_compress.py:32-35 | a long paragraph is cut every max_words words, piece k from word k * max_words on, joined by spaces |
| `Chunking.FlushKeepsBounds` | src/core/llm_compress.py:27-30 | closing a chunk keeps the amortised bound, paid for by the words that did not fit |
| `Chunking.PiecesKeepBounds` | src/core/llm_compress.py:32-35 | the pieces of a long paragraph pay for themselves and the chunk closed before them |
| `Chunking.AddParagraph` | src/core/llm_compress.py:25-38 | one turn of the loop: what is closed and what stays open, and the words read so far kept in both |
| `Chunking.TurnLays` | src/core/llm_compress.py:25-38 | one turn keeps the greedy layout and adds the paragraph to it |
| `Chunking.ChunkParagraphs` | src/core/llm_compress.py:21-43 | the chunks are the greedy layout of the paragraphs: each once, in order, whole on its own line if it fits, and no chunk ends before a paragraph that would have fitted |
| `Chunking.ChunkText` | src/core/llm_compress.py:19-43 | words conserved in order; chunks of 1..max_words words; chunks * max_words + 3 <= 3 * words + max_words; the greedy layout of the stripped lines; what zero and negative limits do |
| `Chunking.KeepOrReplace` | src/core/llm_compress.py:71-97 | chunk by chunk: the reply where it is a string that is not blank, the chunk itself otherwise |
| `Chunking.Compress` | src/core/llm_compress.py:45-99 | one line per chunk, the reply exactly where it is usable and the chunk everywhere else; if every call fails the words are unchanged |
| `Settings.DeepMerge` | src/core/config.py:630-637 | the copying loop computes the merge of the two objects |
| `Settings.MergeItem` | src/core/config.py:633-636 | two objects merge, anything else is replaced |
| `Settings.OverrideWinsPathwise` | src/core/config.py:630-637 | at every path the override decides wherever it says anything, the base everywhere else; only two objects join, with the keys of both |
| `Settings.MergeIdentity` | src/core/config.py:631 | the empty object is a left and right identity |
| `Settings.OverlayTwice` | src/core/config.py:630-637 | applying an override twice is applying it once |
| `Settings.ReplacesIffCovers` | src/core/config.py:630-637 | exactly when a merge is the override alone |
| `Settings.KeepsIffRedundant` | src/core/config.py:630-637 | exactly when a merge is the base alone |
| `Settings.AssociativeIffGroupable` | src/core/config.py:630-637 | exactly which three layers may be merged in either grouping |
| `Settings.LocalLayerIffGroupable` | src/core/config.py:729-734 | exactly when the grouping of `from_file` is layer upon layer |
| `Settings.MigrateTwice` | src/core/config.py:640-655 | the migration is idempotent and removes the legacy key |
| `Settings.MigrateLeavesTheRest` | src/core/config.py:648-654 | every other block, provider and setting is unchanged |
| `Settings.MigrateMovesLegacy` | src/core/config.py:649-652 | the legacy value itself, of whatever shape, is the compression setting afterwards, unless one was there; no other prompt setting appears |
| `Settings.MergeKeepsLegacy` | src/core/config.py:682-687 | merging over the defaults neither hides nor invents a legacy block |
| `Settings.CleaningCommutes` | src/core/config.py:653-654 | for the providers, removing the legacy key before or after the merge is the same |
| `Settings.FromFileResult` | src/core/config.py:722-734 | the settings `from_file` ends with for a legacy block: the default compression stays |
| `Settings.FromDictResult` | src/core/config.py:740-744 | the settings `from_dict` ends with: the legacy block overrides the default |
| `Settings.OrdersAgreeExactly` | src/core/config.py:722-744 | the two ways of loading agree if and only if a condition on the input holds |

## Left out

- Floating-point rounding: all arithmetic is on reals.
- Circuit breaker internals (pybreaker), backoff timing and jitter (tenacity): the breaker is an arbitrary refusal, the retry pause an arbitrary non-negative time.
- HTTP transports, sessions, headers, status-code parsing and error texts: a response is one of five classes chosen by the environment.
- asyncio cancellation and lock queues: lock bodies are atomic steps and any waiting request may go next.
- SQLite mechanics (connections, WAL, busy timeouts, swallowed exceptions) and JSON encoding of cached values: a table is a map and values survive the round trip.
- `verify_thread_safe`: its verdict is an input of `GetShared`, and the probe rows it writes do not appear.
- `_NoOpCache` and `create_cache_backend`: one answers nothing and the other is a three-way dispatch.
- Environment overrides, pydantic validation and the discovery of settings files: `from_file` and `from_dict` are modelled up to the dictionary that is validated.
- The Yahoo provider's own use of the adaptive limiter, providers, catalog, health probes, sanitising, routing and redaction.
- AdaptiveRateLimiter: the time stamp column of the rate table is not modelled, nor two processes writing one row.
- Backend: closing is a flag; an in-memory cache ignores it and the SQLite one reconnects on its next use (`SqliteCacheBackend`).
- AcquireAlone: nobody else polls between the polls of this caller; what rivals can do in between is the subject of `PassesBehindRivalIff`, and of ClientRuns.
- PassSecond: takes its grant with nobody else polling in between, like the AcquireAlone it calls.
- AcquireLimits: likewise; ClientRuns has the contended case.
- MakeRequest: likewise; at the gate there may be any holders and sleepers, and it stops where it would wait for another request's release.
- Request: stops at the gate when it falls asleep there, since only another request can wake it, and does not go round the second limiter's loop for ever; ClientRuns and ClientProgress have what follows.
- SomeoneCanMove: asks every estimate to fit, since one that does not polls for ever, and promises that somebody can move, not that each request in turn does; see AnyRequestStarves.
- EveryoneFinishes: for the same reason; a request that is overtaken for ever can still move, so it does not say that every endless run finishes everybody.
- Migrate: a list of pairs under `llm_prompt`, which `dict()` would accept, is treated like every other value it refuses.
- Compress: the request payload, the API key and which of the two HTTP clients is used do not appear; a failed call and an unusable reply are both "no reply".
