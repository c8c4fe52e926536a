# Verification of fenic's inference client and text engines

A Dafny model of five parts of fenic, with proofs about them.

1. **Model client.** User threads submit batches of requests with deduplication and cache lookups
   (`Batch.dfy`). One worker on the event loop moves requests from the queues through a pass to tasks, asks a
   rate limiter before each task, settles reservations against reported usage and backs off after transient
   errors (`Dispatch.dfy`, `DispatchHistory.dfy`, `DispatchRuns.dfy`, `ModelClient.dfy`). The limiters are token
   buckets with a floored refill (`RateLimit.dfy`, `Strategies.dfy`, `LimiterLaws.dfy`, `RateLimitClasses.dfy`), and output reservations are learned quantiles
   (`OutputEstimator.dfy`). A batch and the client it is submitted to are composed in `BatchInClient.dfy`.
2. **Text splitter.** Recursion over a shrinking separator list around a greedy sliding-window merge
   (`MergeWindows.dfy`, `Splitter.dfy`, `SplitterLaws.dfy`, `SplitterBounds.dfy`, `SplitterCoverage.dfy`, on
   `Strings.dfy`).
3. **Heading tree.** A stack of open headings turns a flat list of Markdown blocks into a forest
   (`HeadingTree.dfy`, `HeadingDocuments.dfy`).
4. **Casts.** Columns to JSON text and back, structs, arrays and embeddings, and the dispatcher over them
   (`DTypes.dfy`, `JsonCast.dfy`, `JsonReading.dfy`, `JsonColumns.dfy`, `CastSeries.dfy`, `CastOutcomes.dfy`,
   `CastRows.dfy`).
5. **Transcripts.** The scanner of the generic transcript format and a printer for it (`Transcript.dfy`,
   `TranscriptPrinter.dfy`).

`dafny verify dfyconfig.toml` checks the whole project. Nothing was executed.

Code that updates state is modelled by classes and methods with loops; each is proved equal to a function of
its inputs or its old state, and the promises are proved about those functions. The protocol is a state machine
whose steps are what runs between two suspending awaits, or less; a schedule is any list of actions, so what
holds after every schedule holds for every interleaving. Times, rates and quantiles are exact real numbers.

## What the proofs brought up

- The adaptive limiter's backoff is documented as a reduction. It raises the rate when a provider hint lies
  above the current rate, and when the configured minimum does (`Strategies.BackoffRaisesRpmExactlyWhen`).
- Merged chunks can exceed the chunk size: a piece of length zero stays behind as overlap, and a separator of
  length two or more after it pushes the next piece over the limit (`MergeWindows.SizeBoundExactlyWhen`, with a
  text in `SplitterBounds.TwoWordSeparatorOverflows`).
- Custom separator lists without the empty separator do not bound the chunk size
  (`SplitterBounds.SizeBoundExactlyWhen`).
- A thread's recorded exception is never cleared, so after one failed request each later submission of the same
  thread raises (`Dispatch.FailedThreadAlwaysRaises`), and each later batch of it raises at its first submission
  and enqueues nothing (`BatchInClient.FailedThreadGetsNothing`).
- The end of a backoff sleep erases the transient time, also that of an error which arrived during the sleep
  (`DispatchRuns.ErrorDuringBackoffIsErased`; `Dispatch.TransientSurvivesExactlyWhen` says which errors are seen).
- The fetch is documented to prefer the retry queue. It takes a new request along whenever both queues have one
  (`DispatchRuns.BothQueuesAreFetched`, `Dispatch.FetchTakesBothExactlyWhen`), though the retried one is served
  first (`Dispatch.RetriedItemIsServedFirst`).
- A null struct that is cast to another struct type becomes a valid one and shows the field rows it was hiding
  (`CastRows.NullStructStaysNullExactlyWhen`, `CastRows.HiddenRowsComeBackExactlyWhen`, with a column in
  `CastRows.HiddenRowComesBack`).
- The last line of a transcript is content unless it ends with a newline, even when it is a header
  (`TranscriptPrinter.LastHeaderExactlyWhenTerminated`).
- A vector with one non-finite entry comes back from JSON as null as a whole (`JsonCast.ValueRoundTrip`), and a
  nested JSON text comes back encoded twice (`JsonCast.NestedJsonIsEncodedTwice`), so the round trip is the
  identity exactly on intact values without JSON text (`JsonCast.RoundTripIsIdentityExactlyWhen`).
- A string column cast to JSON and back loses every text that is not the encoder's own
  (`CastSeries.StringRoundTripExactlyWhen`).
- An embedding cast to an array is a list of 32-bit floats whatever element type was asked for
  (`CastSeries.CanonicalExactlyWhen`).

## Model

| member | source | states |
|---|---|---|
| `TokenBuckets.Books` | src/fenic/_inference/rate_limit_strategy.py:32-53 | An exact account of every run of a bucket: what it holds, what it handed out and did not get back, what was reported used and what was thrown away add up to what it started with, what was credited and what settlement forgave. |
| `TokenBuckets.CapacityInRange` | src/fenic/_inference/rate_limit_strategy.py:39-53 | Through every run of grants, settlements and backoffs the capacity stays between zero and the maximum and the clock of the bucket never goes back. |
| `TokenBuckets.CreditedRefill` | src/fenic/_inference/rate_limit_strategy.py:39-53 | Two-sided refill: over n state-changing calls the whole tokens credited are at most the rate times the elapsed time, and less than one token a call below it. |
| `TokenBuckets.Conservation` | src/fenic/_inference/rate_limit_strategy.py:39-53 | What is left, what is reserved and what was used never exceeds one full bucket, the rate times the elapsed time and the forgiven debt. |
| `TokenBuckets.NothingForgiven` | src/fenic/_inference/rate_limit_strategy.py:319-326 | The forgiven debt is zero in runs whose actual usage never exceeds the reservation. |
| `TokenBuckets.FullAfterAMinute` | src/fenic/_inference/rate_limit_strategy.py:39-48 | A bucket is full a minute after its last update. |
| `TokenBuckets.NotFullBeforeAMinute` | src/fenic/_inference/rate_limit_strategy.py:39-48 | A minute earns exactly the maximum, so an empty bucket is not full before. |
| `TokenBuckets.RateLimitBucket.GetAvailableCapacity` | src/fenic/_inference/rate_limit_strategy.py:39-48 | Reads the floored refill, capped at the maximum, without changing the bucket. |
| `TokenBuckets.RateLimitBucket.SetCapacity` | src/fenic/_inference/rate_limit_strategy.py:50-53 | Replaces capacity and update time and nothing else. |
| `Strategies.ConstructionIsValid` | src/fenic/_inference/rate_limit_strategy.py:67-71 | Construction fails exactly for a non-positive rate, or for the adaptive strategy also a multiplier outside (0, 1); what it gives satisfies the invariants. |
| `Strategies.StepKeepsValid` | src/fenic/_inference/rate_limit_strategy.py:144-422 | Every call keeps the invariants: buckets in range, and for the adaptive strategy the bucket maximum equal to the rate, the rate at least one and at most a registered hint; limits and kind never change, and time never goes back. |
| `Strategies.RunKeepsValid` | src/fenic/_inference/rate_limit_strategy.py:144-422 | The same for every run of calls on a non-decreasing clock. |
| `Strategies.RefusalChangesNothing` | src/fenic/_inference/rate_limit_strategy.py:285-311 | A check that does not admit leaves the strategy as it was, so refused polls lose no refill. |
| `Strategies.RejectedExactlyBeyondLimits` | src/fenic/_inference/rate_limit_strategy.py:313-317 | A check raises exactly for an estimate that no full bucket could serve. |
| `Strategies.AdmittedWithinAMinute` | src/fenic/_inference/rate_limit_strategy.py:285-311 | However many polls were refused before, an estimate within the limits is admitted by the first check a minute after the last change, once any cooldown is over. |
| `Strategies.TokenTraceIsARun` | src/fenic/_inference/rate_limit_strategy.py:279-326 | A run of a strategy is, for each of its token buckets, an allowed run of that bucket alone. |
| `Strategies.OutstandingIsConsumedMinusReleased` | src/fenic/_inference/rate_limit_strategy.py:285-326 | The reservations not yet settled weigh exactly what the bucket handed out and did not get back. |
| `Strategies.TokenConservation` | src/fenic/_inference/rate_limit_strategy.py:279-326 | Token conservation over whole runs of the unified strategy and of each bucket of the separated one, with each settlement matching one earlier admission. |
| `Strategies.AdmissionBound` | src/fenic/_inference/rate_limit_strategy.py:144-261 | Admissions over a run of any strategy are at most what the request bucket held, the highest rate times the elapsed time, and one full bucket for each registered limit. |
| `Strategies.RateStaysBelowCeiling` | src/fenic/_inference/rate_limit_strategy.py:198-261 | Without provider limits, growth and backoff keep the adaptive rate at or below its ceiling. |
| `Strategies.AdaptiveAdmissionBound` | src/fenic/_inference/rate_limit_strategy.py:198-261 | Admissions of an adaptive strategy without provider limits are at most its first rate plus its ceiling times the elapsed time. |
| `Strategies.BackoffRaisesRpmExactlyWhen` | src/fenic/_inference/rate_limit_strategy.py:198-214 | The adaptive backoff, described as a reduction, raises the rate if and only if a hint lies above the rate, or there is no hint and the rate lies below its minimum. |
| `Strategies.BackoffCanRaise` | src/fenic/_inference/rate_limit_strategy.py:198-214 | Both raising cases are reached from constructed strategies. |
| `LimiterLaws.UnifiedAdmitsExactlyWhen` | src/fenic/_inference/rate_limit_strategy.py:285-317 | The shared bucket admits a check if and only if its tokens are within the limit and the buckets hold one whole request and all of them; it raises if and only if they are above the limit. |
| `LimiterLaws.SeparatedAdmitsExactlyWhen` | src/fenic/_inference/rate_limit_strategy.py:371-408 | The same over three buckets, with input and output tokens apart. |
| `LimiterLaws.AdaptiveAdmitsExactlyWhen` | src/fenic/_inference/rate_limit_strategy.py:169-228 | After any calls the adaptive strategy admits a check if and only if the last retry time that a hint gave has come and its bucket holds one whole request; it never raises. |
| `LimiterLaws.NoAdmissionDuringCooldown` | src/fenic/_inference/rate_limit_strategy.py:216-220 | No check before that retry time is admitted, whatever calls came between. |
| `LimiterLaws.HintsAreKept` | src/fenic/_inference/rate_limit_strategy.py:169-196 | The cooldown is the last positive retry time that was registered, and the hint the last positive limit. |
| `LimiterLaws.RequestTraceIsARun` | src/fenic/_inference/rate_limit_strategy.py:285-309 | With a fixed rate the bucket of requests gives one request to each admitted check, is emptied by each backoff, and nothing else touches it. |
| `LimiterLaws.ConsumedIsAdmitted` | src/fenic/_inference/rate_limit_strategy.py:285-309 | It hands out as many requests as checks were admitted. |
| `LimiterLaws.GrowthIsAdditive` | src/fenic/_inference/rate_limit_strategy.py:238-261 | Growth in closed form: without hints and backoffs, after n admissions the rate is the one at the start plus one increment for each full streak among the n, up to the ceiling. |
| `LimiterLaws.HintStopsGrowth` | src/fenic/_inference/rate_limit_strategy.py:238-244 | Once a limit was registered admissions do not raise the rate. |
| `LimiterLaws.AdaptiveAdmissionTakesOne` | src/fenic/_inference/rate_limit_strategy.py:216-261 | An admission takes one whole request also when it raises the rate, and the raised rate is the maximum of the bucket. |
| `LimiterLaws.BackoffRate` | src/fenic/_inference/rate_limit_strategy.py:198-214 | After a backoff the rate is the hint, or the larger of the minimum and the largest whole number not above the scaled rate; a new streak starts. |
| `LimiterLaws.BackoffEmptiesBuckets` | src/fenic/_inference/rate_limit_strategy.py:198-214 | After a backoff a check is admitted only once what it needs has been earned since, with every strategy. |
| `LimiterLaws.HintRate` | src/fenic/_inference/rate_limit_strategy.py:169-196 | A limit lowers the rate to itself, never raises it, and fills the bucket; hints that are not positive change nothing. |
| `LimiterLaws.FreshBuckets` | src/fenic/_inference/rate_limit_strategy.py:274-363 | A fresh strategy holds exactly its configured limits. |
| `LimiterLaws.FreshAdaptive` | src/fenic/_inference/rate_limit_strategy.py:144-167 | From its arguments: a fresh adaptive strategy is on no cooldown, and after n undisturbed admissions has the rate that its increment, streak length and ceiling give. |
| `RateLimitClasses.UnifiedTokenRateLimitStrategy.CheckAndConsumeRateLimit` | src/fenic/_inference/rate_limit_strategy.py:285-311 | The object takes the step of the value-level check and gives its verdict. |
| `RateLimitClasses.UnifiedTokenRateLimitStrategy.Settle` | src/fenic/_inference/rate_limit_strategy.py:319-326 | The object takes the step of the value-level settlement. |
| `RateLimitClasses.SeparatedTokenRateLimitStrategy.CheckAndConsumeRateLimit` | src/fenic/_inference/rate_limit_strategy.py:371-400 | The same for the two separate token buckets: all three buckets are consumed or none. |
| `RateLimitClasses.SeparatedTokenRateLimitStrategy.Settle` | src/fenic/_inference/rate_limit_strategy.py:410-422 | The same for both token buckets. |
| `RateLimitClasses.AdaptiveBackoffRateLimitStrategy.CheckAndConsumeRateLimit` | src/fenic/_inference/rate_limit_strategy.py:216-228 | The same for the adaptive strategy, with its cooldown gate and growth. |
| `RateLimitClasses.AdaptiveBackoffRateLimitStrategy.Backoff` | src/fenic/_inference/rate_limit_strategy.py:198-214 | The same for the adaptive backoff. |
| `RateLimitClasses.AdaptiveBackoffRateLimitStrategy.RegisterRateLimitHint` | src/fenic/_inference/rate_limit_strategy.py:169-196 | The same for registering a provider hint. |
| `RateLimitClasses.AdaptiveBackoffRateLimitStrategy.RecordSuccessAndMaybeGrow` | src/fenic/_inference/rate_limit_strategy.py:238-261 | The same for counting a success and growing. |
| `OutputEstimator.OrderStatistic` | src/fenic/_inference/output_token_estimator.py:19-28 | The k-th sorted sample is at most v exactly when more than k samples are. |
| `OutputEstimator.ReservationInRange` | src/fenic/_inference/output_token_estimator.py:50-67 | A positive ceiling gives a reservation between one and the ceiling for every window; any other ceiling is returned as it is. |
| `OutputEstimator.Coverage` | src/fenic/_inference/output_token_estimator.py:50-67 | With a margin of at least one and samples between zero and the ceiling, at least floor(q(n-1))+1 of the n retained samples fit the reservation. |
| `OutputEstimator.QuantileIsLinear` | src/fenic/_inference/output_token_estimator.py:19-28 | The quantile of sorted values is the value below its position and the part of the step to the next one that the position is past it. |
| `OutputEstimator.ReservationIsLeast` | src/fenic/_inference/output_token_estimator.py:50-67 | The reservation is the ceiling unless the estimator is enabled and has enough samples, and otherwise the least whole number not below quantile times margin, between one and the ceiling. |
| `OutputEstimator.ReservationIgnoresOrder` | src/fenic/_inference/output_token_estimator.py:62-67 | The reservation depends only on the multiset of the retained samples. |
| `OutputEstimator.ReservationIsMonotone` | src/fenic/_inference/output_token_estimator.py:19-67 | Replacing a sample by a larger one never lowers the reservation. |
| `OutputEstimator.WindowHoldsLastSamples` | src/fenic/_inference/output_token_estimator.py:45-74 | After any run of observations each key holds exactly its own last samples, as many as the window allows. |
| `OutputEstimator.LastNIsSuffix` | src/fenic/_inference/output_token_estimator.py:45-47 | A window holds as many elements as it may, and they are the last ones. |
| `OutputEstimator.HistoriesWithEqualWindows` | src/fenic/_inference/output_token_estimator.py:45-74 | Histories whose windows for a key hold the same samples in any order reserve alike. |
| `OutputEstimator.OutputTokenEstimator.Reserve` | src/fenic/_inference/output_token_estimator.py:50-67 | The object returns the reservation of the key's window, or fails with the list access exactly for an empty window under a minimum that is not positive. |
| `OutputEstimator.OutputTokenEstimator.Observe` | src/fenic/_inference/output_token_estimator.py:69-74 | The object appends to the key's window, drops the oldest sample beyond the bound, and changes no other key. |
| `Dispatch.StepConserves` | src/fenic/_inference/model_client.py:760-940 | Every step keeps: each enqueued item is counted once over request queue, retry queue, getters, pending without processed, live tasks and resolved items. |
| `Dispatch.GettersKeepHeads` | src/fenic/_inference/model_client.py:918-932 | While the fetch waits, each getter holds the head of its queue if there was one, or else what it took later, whatever else runs. |
| `Dispatch.EachItemInOnePlace` | src/fenic/_inference/model_client.py:760-940 | In every such state an enqueued item is in exactly one of the six places, and nothing else is in any. |
| `Dispatch.NoDoubleDispatch` | src/fenic/_inference/model_client.py:773-798 | No item has two live tasks, none is resolved twice, and none is both live and resolved. |
| `Dispatch.RemainingTakesProcessed` | src/fenic/_inference/model_client.py:796-798 | The removals at the end of a pass take exactly the processed items, and each one is found. |
| `Dispatch.StepResolves` | src/fenic/_inference/model_client.py:803-964 | A step sets at most one future, and only an open one, so a set future keeps its value; a recorded thread exception belongs to a failed item. |
| `DispatchHistory.ResultsAreOutcomes` | src/fenic/_inference/model_client.py:803-891 | After every schedule a future has a response if and only if an action of the schedule ended a task of its request with that response, and a failure if and only if one ended it with a fatal error, a transient one with no backoff left, or a rejected check. |
| `DispatchHistory.EndingSetsFuture` | src/fenic/_inference/model_client.py:803-891 | One action sets exactly the future of the request it ends, which was open. |
| `DispatchHistory.QueuesKeepOrder` | src/fenic/_inference/model_client.py:816-855 | Both queues are first in, first out over every schedule: what the getters took, followed by what is queued, is what the schedule put there; the retry queue gets exactly the timeouts and the transient errors within the budget, at its end. |
| `DispatchHistory.LimiterSeesSchedule` | src/fenic/_inference/model_client.py:776-909 | The limiter is where the checks of visited items, the settlements of reported usage, the backoffs and the hints of the schedule took it, each with exactly the amounts of the actions. |
| `DispatchHistory.PassVisitsAllInOrder` | src/fenic/_inference/model_client.py:772-798 | A pass asks the limiter about every pending item once, in order; what stays pending is exactly the refused ones, in order. |
| `DispatchHistory.ChecksRaiseExactlyWhen` | src/fenic/_inference/model_client.py:533-538 | A submission raises if and only if an item of the same thread has failed. |
| `DispatchHistory.WorkerWaitsExactlyWhen` | src/fenic/_inference/model_client.py:760-940 | In every reachable state the worker can move, once its sleep is over, unless it waits for an item and both queues are empty. |
| `Dispatch.VisitStarts` | src/fenic/_inference/model_client.py:776-783 | Starting a task and consuming the limiter are one step. |
| `Dispatch.StepKeepsLimiter` | src/fenic/_inference/model_client.py:776-891 | Live tasks and attempts that ended without reported usage hold exactly the limiter's outstanding reservations, and as many tasks were started as the limiter admitted. |
| `Dispatch.StepKeepsBudget` | src/fenic/_inference/model_client.py:893-909 | Backoffs stay within the maximum, a pending transient time leaves one in the budget, and the time slept is within the budget of the backoffs taken. |
| `Dispatch.RunKeepsInv` | src/fenic/_inference/model_client.py:760-940 | All invariants hold after every schedule of user threads, worker, tasks and clock. |
| `Dispatch.TotalBackoffIsBounded` | src/fenic/_inference/model_client.py:540-552 | Over the client's life the backoff sleep is at most the sum of min(60, initial times factor to the i) over the allowed backoffs. |
| `DispatchHistory.SleepsExactlyWhen` | src/fenic/_inference/model_client.py:893-909 | At a decision the worker sleeps if and only if the backoff time of a recorded error is not over, and until it is. |
| `DispatchHistory.SleepLasts` | src/fenic/_inference/model_client.py:893-909 | Whatever the schedule, the worker stays in a sleep until its end. |
| `DispatchHistory.VisitLeadsToDecision` | src/fenic/_inference/model_client.py:785-788 | A refused item makes the worker wait and then decide about a backoff; it can do nothing else in between. |
| `DispatchHistory.BackoffTimesGrow` | src/fenic/_inference/model_client.py:540-552 | The backoff times start with the initial one, each is the one before times the factor, and a minute is the most. |
| `Dispatch.ClientTokenConservation` | src/fenic/_inference/model_client.py:776-891 | Token conservation for the whole client under every schedule. |
| `Dispatch.ClientDispatchBound` | src/fenic/_inference/model_client.py:776-783 | Tasks started under every schedule and any strategy are at most one burst, the highest rate of the run times the elapsed time, and one burst for each registered limit. |
| `Strategies.HighestIsLeast` | src/fenic/_inference/rate_limit_strategy.py:144-261 | The highest rate of the bound is the least one: every number that all rates of the run stay below is at least that. |
| `Dispatch.FixedDispatchBound` | src/fenic/_inference/model_client.py:776-783 | With the strategies of fixed rate that is the rate, without further bursts. |
| `Dispatch.AdaptiveDispatchBound` | src/fenic/_inference/model_client.py:776-783 | With the adaptive strategy and schedules that register no limit it is the ceiling, without further bursts. |
| `Dispatch.QuiescentMeansResolved` | src/fenic/_inference/model_client.py:760-940 | When nothing is queued, held by a getter, pending or live, every enqueued item has its result. |
| `Dispatch.ThreadExceptionsAreSticky` | src/fenic/_inference/model_client.py:951-964 | Once an item of a thread failed, the thread's exception stays recorded for the rest of the run. |
| `Dispatch.FailedThreadAlwaysRaises` | src/fenic/_inference/model_client.py:533-538 | From any state with the exception recorded and no submission of the thread past its check, no schedule enqueues another item of the thread, and each of its later submissions raises. |
| `Dispatch.FailedThreadEnqueuesAtMostOnce` | src/fenic/_inference/model_client.py:662-664 | With a submission past its check, at most that one item more. |
| `Dispatch.TransientSurvivesExactlyWhen` | src/fenic/_inference/model_client.py:893-909 | A recorded transient error is seen by the next decision to back off if it was recorded while the worker was not in a backoff sleep, unless a later one replaced it by a later time; one recorded during a sleep is lost when the sleep ends. |
| `DispatchRuns.ErrorDuringBackoffIsErased` | src/fenic/_inference/model_client.py:843-909 | A schedule from the start reaches a backoff sleep during which another transient error is recorded; when the sleep ends the record is gone, half a second after the error. |
| `Dispatch.FetchTakesBothExactlyWhen` | src/fenic/_inference/model_client.py:911-940 | Whatever runs while the fetch waits, it takes the head of each queue that is not empty as it starts, the retried item first; it takes two items if and only if each queue had one then or its getter found one later. |
| `Dispatch.RetriedItemIsServedFirst` | src/fenic/_inference/model_client.py:772-783 | An item that waits to be retried when the fetch starts gets the first check of the pass. |
| `DispatchRuns.BothQueuesAreFetched` | src/fenic/_inference/model_client.py:911-940 | A schedule from the start reaches a state in which one fetch takes a new request together with a retried one. |
| `DispatchRuns.StartIsConstructed` | src/fenic/_inference/rate_limit_strategy.py:274-284 | The state in which these schedules start has a limiter that the constructor gives. |
| `ModelClients.RemoveItem` | src/fenic/_inference/model_client.py:796-798 | Removes the first occurrence and nothing else. |
| `ModelClients.RemoveProcessed` | src/fenic/_inference/model_client.py:796-798 | Removes each processed request once, and each is found. |
| `ModelClients.ModelClient.MaybeRaiseThreadException` | src/fenic/_inference/model_client.py:533-538 | Raises exactly when an exception is recorded for the thread; otherwise the thread is past its check. |
| `ModelClients.ModelClient.EnqueueRequest` | src/fenic/_inference/model_client.py:566-573 | The object's fields after the call are the state after the protocol's enqueue step. |
| `ModelClients.ModelClient.StartGetters` | src/fenic/_inference/model_client.py:918-925 | The fields become the state after the start of the fetch: each getter has the head of its queue, if there is one. |
| `ModelClients.ModelClient.GetQueuedRequests` | src/fenic/_inference/model_client.py:931-940 | The fields become the state after the end of the fetch: what the getters took, the retried item first. |
| `ModelClients.ModelClient.VisitPending` | src/fenic/_inference/model_client.py:774-795 | The fields become the state after the visit of one pending item, from the limiter's check to the first suspension. |
| `ModelClients.ModelClient.TakeTurn` | src/fenic/_inference/model_client.py:776-798 | The fields become the state after the turn that the limiter's verdict calls for: a task, a wait, or a recorded failure. |
| `ModelClients.ModelClient.MaybeBackoff` | src/fenic/_inference/model_client.py:893-906 | The fields become the state after the choice between a backoff sleep, with its length, and the next item. |
| `ModelClients.ModelClient.StartPass` | src/fenic/_inference/model_client.py:765-774 | The fields become the state after the protocol's begin step: another pass over what is still pending. |
| `ModelClients.ModelClient.CheckLimiter` | src/fenic/_inference/model_client.py:554-564 | The strategy object takes the check, the state records it, and the verdict is that of the strategy. |
| `ModelClients.ModelClient.AfterRefill` | src/fenic/_inference/model_client.py:785-788 | The fields become the state after the wait of a refused item: it stays pending and its turn ends like any other. |
| `ModelClients.ModelClient.AfterBackoff` | src/fenic/_inference/model_client.py:907-909 | The fields become the state after a backoff sleep: one more backoff counted, the transient time erased, the limiter drained. |
| `ModelClients.ModelClient.EndPass` | src/fenic/_inference/model_client.py:796-798 | The fields become the state after a pass: one removal from pending for each processed item, each of which is found. |
| `ModelClients.ModelClient.HandleResponse` | src/fenic/_inference/model_client.py:803-891 | The fields become the state after a task that ended in success, a transient error, a fatal error or a timeout. |
| `ModelClients.ModelClient.RegisterThreadException` | src/fenic/_inference/model_client.py:951-964 | A failure sets the future only if it is open, and always records the thread. |
| `Batch.CacheLookups` | src/fenic/_inference/model_client.py:625-642 | The fingerprints looked up are exactly the cacheable ones, each once. |
| `Batch.LookupsFindHits` | src/fenic/_inference/model_client.py:632-688 | What the loop finds among the looked-up responses is what the cache holds. |
| `Batch.HitsExactlyWhen` | src/fenic/_inference/model_client.py:676-688 | Only completions are answered from the cache, and they are if and only if the cache works and holds their fingerprint. |
| `Batch.OneEnqueuePerKey` | src/fenic/_inference/model_client.py:479-531 | There are as many enqueued positions as distinct keys that miss the cache. |
| `Batch.PrimariesAreMisses` | src/fenic/_inference/model_client.py:700-723 | The enqueued positions are exactly the first position of each key that misses. |
| `Batch.KeysTellRequestsApart` | src/fenic/_inference/model_client.py:493-501 | Two requests are duplicates if and only if they have the same fingerprint, or neither has one and they are the same object. |
| `Batch.TotalsAreSums` | src/fenic/_inference/model_client.py:704-712 | The total estimate is the sum over the enqueued requests, of input and of output tokens. |
| `Batch.BatchRefinesMap` | src/fenic/_inference/model_client.py:606-731 | Under every interleaving of submissions and results each position is none for an empty request, the cached response for a hit, and otherwise the response to the first request of the same key; one enqueue per missed key; the counters are their number and sum. |
| `Batch.RaisedBatchStaysEmpty` | src/fenic/_inference/model_client.py:662-664 | A batch whose first submission raises enqueues nothing and hands back nothing, whatever follows. |
| `Batch.AllAnswered` | src/fenic/_inference/model_client.py:733-755 | Once every enqueued request is answered every position is. |
| `Batch.CollectBatchResponses` | src/fenic/_inference/model_client.py:733-755 | The responses in the order of the futures, or the failure of the first failed one. |
| `Batch.BatchSubmission.SubmitRequest` | src/fenic/_inference/model_client.py:662-723 | One iteration of the submission loop is the submission step, up to the failure raised for the thread. |
| `Batch.BatchSubmission.GetOrCreateRequestFuture` | src/fenic/_inference/model_client.py:479-531 | A duplicate copies the existing future, at once or when it is set; a new key gets its own future. |
| `Batch.BatchSubmission.ResolveFuture` | src/fenic/_inference/model_client.py:503-522 | Setting a future sets every waiting copy to the same result. |
| `BatchInClient.NotifyKeepsLink` | src/fenic/_inference/model_client.py:503-522 | The step of the client that sets the future of an enqueued position sets exactly the positions of that key; the other enqueued positions keep their state. |
| `BatchInClient.RunKeepsInv` | src/fenic/_inference/model_client.py:606-731 | The invariants of the batch, of the client and of their link hold after every interleaving of the thread with other threads, the worker and its tasks. |
| `BatchInClient.BatchGetsResolutions` | src/fenic/_inference/model_client.py:606-731 | After every interleaving, each position of a batch has exactly what is due: nothing for no request, the cached response, or what the client answered to the first request of the same key; exactly those first requests are in the client, once each; and the batch is given up only when its thread has a recorded failure. |
| `BatchInClient.RestingClientHasAnswered` | src/fenic/_inference/model_client.py:733-755 | When the client has come to rest no position of the batch is left waiting. |
| `BatchInClient.FailedThreadGetsNothing` | src/fenic/_inference/model_client.py:533-538 | A batch of a thread with a recorded failure raises at its first submission, whatever else happens, and enqueues nothing. |
| `BatchInClient.PositionHasItsOutcome` | src/fenic/_inference/model_client.py:606-755 | After every interleaving a position that misses the cache has a response if and only if a task of the first request of its key came back with that response, and a failure if and only if that request met a fatal error, a transient one with no backoff left, or limits it cannot fit. |
| `MergeWindows.WindowsCoverAll` | rust/src/chunking/splitter.rs:293-368 | The windows start with the first piece and end with the last. |
| `MergeWindows.WindowsAreGreedy` | rust/src/chunking/splitter.rs:293-368 | Consecutive windows are contiguous or overlap, both ends move on, the closed one had no room for the next piece, and the overlap is within its limit and the first the dropping loop allows. |
| `MergeWindows.ClosedThenOpen` | rust/src/chunking/splitter.rs:299-368 | The windows closed by the loop so far, followed by those still to come, are the windows of the whole. |
| `MergeWindows.SizeBoundExactlyWhen` | rust/src/chunking/splitter.rs:316-341 | For pieces that fit on their own, every window respects the size, measured by the running length that the loop compares, if and only if no zero-length piece is followed by one that the separator pushes over the limit. |
| `MergeWindows.SizeBoundHolds` | rust/src/chunking/splitter.rs:316-341 | The bound holds for positive lengths, and for separators of length at most one. |
| `SplitterBounds.TwoWordSeparatorOverflows` | rust/src/chunking/splitter.rs:155-368 | Counting words, the text "ab cd ab cd a b c" with the separator "ab cd" first in the list, a size of four and an overlap of one gives one chunk of five words. |
| `SplitterLaws.MergeIsGreedy` | rust/src/chunking/splitter.rs:281-368 | Merging renders windows of the pieces in terms of the splitter itself: a window takes pieces as long as they fit the chunk size, and the next one starts with the longest tail that is within the chunk overlap and leaves room for the next piece, or is empty. |
| `SplitterLaws.ShortPiecesAreMerged` | rust/src/chunking/splitter.rs:246-276 | Pieces that are all shorter than the chunk size become the merged windows of all of them. |
| `SplitterLaws.LongPieceIsDivided` | rust/src/chunking/splitter.rs:246-276 | A piece that is not ends the run of short ones, is split by the separators that are left or stays when none is, and what follows starts afresh. |
| `SplitterLaws.SplitUsesFirstSeparator` | rust/src/chunking/splitter.rs:187-246 | A level of the recursion uses the first separator that is empty or occurs, and leaves those after it; the first of the list when none does. |
| `SplitterLaws.ChunksAreTrimmed` | rust/src/chunking/splitter.rs:155-184 | The chunks are those of the trimmed text, each trimmed, without the blank ones. |
| `SplitterLaws.SplitCutsLeftmost` | rust/src/chunking/splitter.rs:235-241 | A text is cut at the leftmost occurrences of the separator, no part holds it, and joining the parts gives the text. |
| `SplitterLaws.NonEmptyFilters` | rust/src/chunking/splitter.rs:240-241 | The filter drops the empty parts and keeps the others in order. |
| `SplitterLaws.BytesAreFewest` | rust/src/chunking/splitter.rs:372-372 | The length in bytes is that of UTF-8: each character takes the fewest bytes that can carry it. |
| `SplitterLaws.WordsAreRuns` | rust/src/chunking/splitter.rs:373-373 | Words are the stretches between blanks. |
| `SplitterLaws.LengthsAreCounted` | rust/src/chunking/splitter.rs:370-388 | Lengths are bytes, words or the count of the tokenizer. |
| `SplitterLaws.ConstructionKeepsSettings` | rust/src/chunking/splitter.rs:120-152 | A splitter is constructed if and only if the overlap is below the chunk size, with the settings it was given. |
| `Splitter.MakeOverlap` | rust/src/chunking/splitter.rs:322-341 | The dropping loop stops where the reference says, the running length is the true length of the contents, and the subtraction never goes below zero. |
| `Splitter.MakeRoom` | rust/src/chunking/splitter.rs:304-341 | A window is output exactly when the next piece does not fit. |
| `Splitter.AddSplit` | rust/src/chunking/splitter.rs:304-354 | One iteration of the merge keeps the closed windows output and the open one in the buffers. |
| `Splitter.MergeSplits` | rust/src/chunking/splitter.rs:293-368 | The merge outputs the greedy windows of the pieces. |
| `Splitter.SelectSeparator` | rust/src/chunking/splitter.rs:201-217 | The first separator that is empty or occurs in the text, and what follows it in the list. |
| `Splitter.SplitTextRecursive` | rust/src/chunking/splitter.rs:187-278 | The recursion computes its specification and terminates because the separator list gets shorter. |
| `Splitter.AssembleSplits` | rust/src/chunking/splitter.rs:243-276 | The loop over the pieces: short ones merged in order, long ones divided in place. |
| `Splitter.RecursivelyChunkText` | rust/src/chunking/splitter.rs:155-184 | The whole call computes its specification: nothing for blank text, trimmed and non-blank chunks otherwise. |
| `SplitterBounds.WidthIsJoinedLength` | rust/src/chunking/splitter.rs:281-354 | Counting bytes, the running length of a window is the length of its joined text. |
| `SplitterBounds.WidthBoundsLength` | rust/src/chunking/splitter.rs:281-354 | Counting bytes or words, the running length of a window is at least the length of its joined text. |
| `SplitterBounds.ChunksFit` | rust/src/chunking/splitter.rs:187-278 | Counting bytes, or words with no separator of two words, every chunk of a list with the empty separator is at most the chunk size or a single character. |
| `SplitterBounds.BuiltInListsFit` | rust/src/chunking/splitter.rs:7-34 | The same for either built-in separator list, counting bytes or words. |
| `SplitterBounds.WordsNeverExceed` | rust/src/chunking/splitter.rs:120-152 | Counting words, no chunk of a splitter that could be constructed has more words than the chunk size. |
| `SplitterBounds.SizeBoundExactlyWhen` | rust/src/chunking/splitter.rs:187-278 | Counting bytes, and for every list of fewer than 2^20 separators, the bound holds of all texts if and only if the list has the empty separator. |
| `SplitterBounds.ForeignTextStays` | rust/src/chunking/splitter.rs:187-278 | A long run of a visible character comes back whole unless some separator is empty or a run of that character. |
| `SplitterCoverage.WindowsCover` | rust/src/chunking/splitter.rs:293-368 | The merged windows cover their pieces in order without a gap, exactly when there is no overlap and zero length means blank. |
| `SplitterCoverage.SplitCovers` | rust/src/chunking/splitter.rs:187-278 | So does the recursion. |
| `SplitterCoverage.ChunksCoverText` | rust/src/chunking/splitter.rs:155-278 | With any length function and any overlap, every character that is neither whitespace nor of a separator is covered by some chunk, in order. |
| `SplitterCoverage.ChunksAreTheText` | rust/src/chunking/splitter.rs:155-278 | Without overlap, counting bytes or words, deleting whitespace and separator characters from the concatenated chunks gives what deleting them from the text gives. |
| `HeadingTree.ReceiveInserts` | rust/src/markdown_json/converter.rs:82-184 | Each step of the builder is one insertion at the right edge of the forest that the stack stands for, and keeps the stack levels strictly increasing. |
| `HeadingTree.BuildRefinesInsertion` | rust/src/markdown_json/converter.rs:59-184 | The built forest is what inserting the blocks one by one gives; the stack levels are strictly increasing in every reachable state. |
| `HeadingTree.FlattenOfBuild` | rust/src/markdown_json/converter.rs:59-184 | Flattening the built forest gives back the supported blocks in order. |
| `HeadingTree.BuildIsWellFormed` | rust/src/markdown_json/converter.rs:132-184 | Each child list of the built forest is leaves followed by headings of non-increasing level, all strictly deeper than the parent. |
| `HeadingTree.BuildOfFlatten` | rust/src/markdown_json/converter.rs:59-184 | Rebuilding a well-formed forest from its flattening gives that same forest. |
| `HeadingTree.WellFormedExactlyBuilt` | rust/src/markdown_json/converter.rs:59-184 | The built forests are exactly the well-formed ones. |
| `HeadingTree.FirstErrorWins` | rust/src/markdown_json/converter.rs:82-162 | The conversion fails exactly when some block fails, with the error of the first one. |
| `HeadingDocuments.DocumentHoldsNodes` | rust/src/markdown_json/converter.rs:59-184 | A document of nodes none of which fails holds as many blocks as there are supported nodes, and each supported node has its own heading, with depth and content, or block at its place among them. |
| `HeadingDocuments.DocumentFailsExactlyWhen` | rust/src/markdown_json/converter.rs:59-162 | A document is refused if and only if it is no root or some node fails, with the error of the first one. |
| `HeadingTree.MdAstConverter.HandleHeading` | rust/src/markdown_json/converter.rs:132-162 | The object closes deeper and equal headings and opens the new one; a heading whose content fails has still closed them. |
| `HeadingTree.MdAstConverter.ProcessBlockNode` | rust/src/markdown_json/converter.rs:82-130 | The object takes the step of the node, or fails with its error. |
| `HeadingTree.MdAstConverter.AddToCurrentHeadingOrOutput` | rust/src/markdown_json/converter.rs:164-178 | A block goes to the innermost open heading, or to the document. |
| `HeadingTree.MdAstConverter.FlushHeadings` | rust/src/markdown_json/converter.rs:180-184 | The stack is emptied and every open heading ends in its parent. |
| `HeadingTree.MdAstConverter.ConvertRoot` | rust/src/markdown_json/converter.rs:59-80 | The document is the built forest, or the first error. |
| `HeadingTree.MdAstConverter.ConvertMarkdown` | rust/src/markdown_json/converter.rs:44-57 | What an earlier failed conversion left on the stack has no effect. |
| `DTypes.RowsConform` | rust/src/dtypes/types.rs:59-97 | Every row of a well-formed column conforms to the storage type of the column. |
| `DTypes.StorageHoldsOwnValues` | rust/src/dtypes/types.rs:59-97 | Each type stores its own kind of single values and nulls. |
| `DTypes.StorageOfLists` | rust/src/dtypes/types.rs:59-97 | Arrays are lists of their elements' storage, embeddings have their width, and the two kinds of floats differ. |
| `DTypes.StorageOfFields` | rust/src/dtypes/types.rs:76-88 | A struct stores its fields under their names in order. |
| `JsonCast.ValueRoundTrip` | rust/src/dtypes/json.rs:25-239 | Casting a value to JSON and back is one normalisation for every type that the cast from JSON implements: null structs become structs of nulls, non-finite numbers null, vectors with such an entry null, and nested JSON texts are encoded once more. |
| `JsonCast.NormalIsIdempotent` | rust/src/dtypes/json.rs:25-239 | Where no JSON is in the type the normalisation is idempotent. |
| `JsonCast.NormalIsIdentityExactlyWhen` | rust/src/dtypes/json.rs:25-239 | A value is its own normal form if and only if no struct in it is null, all its numbers and vector entries are finite, and each nested JSON text encodes as itself. |
| `JsonCast.CastIsStable` | rust/src/dtypes/json.rs:69-239 | A value that came from JSON is unchanged by going to JSON and back if and only if each nested JSON text in it encodes as itself, so always where no JSON is in the type. |
| `JsonCast.NestedJsonIsEncodedTwice` | rust/src/dtypes/json.rs:223-235 | At any depth of arrays and structs, the nested JSON texts that come back are exactly those that went out, each encoded once more as a string. |
| `JsonCast.RoundTripIsIdentityExactlyWhen` | rust/src/dtypes/json.rs:25-239 | To JSON and back is the identity if and only if the value is intact and each nested JSON text encodes as itself; where encoding lengthens strings, if and only if it is intact and holds no JSON text. |
| `JsonCast.BuildRefinesCast` | rust/src/dtypes/json.rs:69-239 | The column built from JSON values has one row per value, the canonical storage type, and in row i the recursive cast of value i. |
| `JsonCast.VectorsRefineCast` | rust/src/dtypes/json.rs:130-192 | The same for the embedding arm: a row is valid exactly when its JSON is an array of that many numbers. |
| `JsonCast.BufferFits` | rust/src/dtypes/json.rs:130-169 | The flat buffer always has rows times dimensions numbers. |
| `JsonCast.PortableNeverPanics` | rust/src/dtypes/json.rs:69-239 | The types of the round trip never reach an unimplemented builder. |
| `JsonReading.EqualNumbersReadAlike` | rust/src/dtypes/json.rs:272-300 | The floating-point types read equal JSON numbers alike, written as integers or not, and anything else as null. |
| `JsonReading.EqualVectorsReadAlike` | rust/src/dtypes/json.rs:130-169 | The same for the entries of a vector, which is read if and only if it has the right length. |
| `JsonReading.VectorsAreRead` | rust/src/dtypes/json.rs:130-169 | A vector is read if and only if it is an array of the right length that holds only numbers. |
| `JsonReading.TruthsAndArraysAreRead` | rust/src/dtypes/json.rs:302-330 | Truth values and arrays are read as what they are, element by element, and nothing else is read as one. |
| `JsonReading.UnimplementedTargetsPanic` | rust/src/dtypes/json.rs:69-239 | Dates, timestamps, Markdown, HTML, transcripts and paths panic whatever the values, also as fields, and as elements if and only if there is an array. |
| `JsonReading.IntegersAreRead` | rust/src/dtypes/json.rs:257-270 | An integer is read if and only if it is one of 64 bits. |
| `JsonReading.TextsKeepJson` | rust/src/dtypes/json.rs:242-255 | As a text a string is itself, null is null, and any other value a text that is read back as it. |
| `JsonReading.FieldsAreRead` | rust/src/dtypes/json.rs:194-221 | Each field of a struct is the cast of the property of its name, and of null where there is none or no object. |
| `JsonReading.LastEntryCounts` | rust/src/arrow_scalar_extractor.rs:280-292 | Of equally named fields the last one is written. |
| `JsonReading.WrittenExactlyWithoutDates` | rust/src/arrow_scalar_extractor.rs:180-278 | A value can be written as JSON if and only if no date and no timestamp stands in it at any depth. |
| `JsonColumns.AppendVector` | rust/src/dtypes/json.rs:135-168 | Pushing numbers and taking them back on the first other entry leaves one full slot in the buffer and one validity flag. |
| `JsonColumns.CastToLists` | rust/src/dtypes/json.rs:115-128 | The array arm builds the column of the specification, and panics exactly when some actual array does. |
| `JsonColumns.CastToStructs` | rust/src/dtypes/json.rs:194-221 | The struct arm builds the column of the specification, field by field. |
| `JsonColumns.CastJsonToColumn` | rust/src/dtypes/json.rs:69-239 | All arms together: the specified column, or a panic exactly when an unimplemented type is reached. |
| `JsonColumns.CastJsonToFenicDType` | rust/src/dtypes/json.rs:47-66 | Parsing all rows first: text that does not parse panics. |
| `JsonColumns.ValidatedTextIsCast` | rust/src/dtypes/json.rs:12-66 | Text validated on the way in never meets the parse failure on the way out: its cast to a type is that of the parsed values, null where the text was not JSON, and always succeeds for a portable type. |
| `JsonColumns.ValidatedExactlyWhen` | rust/src/dtypes/json.rs:12-22 | Validation leaves a column as it is if and only if all its texts are JSON, so validating twice changes nothing more. |
| `JsonColumns.Convert` | rust/src/arrow_scalar_extractor.rs:180-278 | The row converter gives the JSON of the row's value, or an error exactly when a date or timestamp is in it. |
| `JsonColumns.ConvertStruct` | rust/src/arrow_scalar_extractor.rs:280-292 | The same for structs, with the last of equally named fields kept. |
| `JsonColumns.ConvertList` | rust/src/arrow_scalar_extractor.rs:294-324 | The same for lists. |
| `JsonColumns.ConvertFixedSizeList` | rust/src/arrow_scalar_extractor.rs:326-343 | The same for fixed-size lists, read from their place in the flat buffer. |
| `JsonColumns.ConvertChunk` | rust/src/dtypes/json.rs:30-41 | Row by row the text of the JSON of the value, null for a JSON null, or failure exactly when some row has no conversion. |
| `JsonColumns.CastFenicDTypeToJson` | rust/src/dtypes/json.rs:25-44 | The texts of all chunks in order, or failure exactly when some row of some chunk has no conversion; for one chunk that is the column of the dispatcher. |
| `JsonReading.TextsFollowChunks` | rust/src/dtypes/json.rs:25-44 | The texts of a series are those of its rows, chunk after chunk. |
| `JsonColumns.ColumnRoundTrip` | rust/src/dtypes/json.rs:25-66 | A column whose own texts are read back survives the cast to JSON text and back: it always succeeds, and every row is the normal form of the original. |
| `JsonColumns.EveryColumnHasACodec` | rust/src/dtypes/json.rs:25-66 | Every column has a codec that reads its texts back. |
| `CastSeries.CastIsTyped` | rust/src/dtypes/cast.rs:40-122 | On every arm that gives a column the result has the input's length and the result type of the pair; the recursion with its Markdown re-dispatch terminates. |
| `CastOutcomes.CastIsForeseen` | rust/src/dtypes/cast.rs:40-122 | For every column of its type's storage, whether the dispatcher gives a column, an error or a panic is what the types, the storage and the engine's own casts decide: the engine's arms by the engine, structs and lists by all their fields and lists, and panics for the unreachable and unimplemented pairs. |
| `CastOutcomes.PrimitiveCastIsEngines` | rust/src/dtypes/cast.rs:119-120 | Between primitive types the cast is the engine's column, and an error if and only if it has none. |
| `CastOutcomes.VectorCastIsEngines` | rust/src/dtypes/collections.rs:98-109 | The same for float lists to embeddings, and for embeddings to lists. |
| `CastOutcomes.WrongStorageFails` | rust/src/dtypes/collections.rs:8-70 | A column of another storage than its type's is an error where the storage is looked at first. |
| `CastOutcomes.SupportedPairsGive` | rust/src/dtypes/cast.rs:40-122 | With an engine that has every cast, a supported pair of types, down to fields and elements, gives a column for every column. |
| `CastSeries.CanonicalExactlyWhen` | rust/src/dtypes/types.rs:59-97 | The result type is the target's canonical one if and only if no embedding is cast to an array of anything but 32-bit floats, at the top or in a struct field. |
| `CastSeries.LookupsAgree` | rust/src/dtypes/collections.rs:16-42 | The columns and the types of a source struct are found together, so the internal-error branch is unreachable. |
| `CastSeries.FullNullTyped` | rust/src/dtypes/collections.rs:50-54 | A field the source does not have is a column of nulls of the right type and length. |
| `CastSeries.CastStructToStruct` | rust/src/dtypes/collections.rs:8-63 | The loop over the target's fields computes the specification and stops at the first failure. |
| `CastSeries.CastArrayToArray` | rust/src/dtypes/collections.rs:66-96 | The loop over the lists computes the specification and stops at the first failure. |
| `CastSeries.DispatchedRoundTrip` | rust/src/dtypes/cast.rs:66-68 | The round trip through the dispatcher, for every portable type but a bare string, of columns whose own texts are read back; a bare JSON column is left alone. |
| `CastSeries.StringRoundTripExactlyWhen` | rust/src/dtypes/cast.rs:66-68 | A bare string column always comes back, and a row is unchanged if and only if it is null, the encoder's own text of a value that is neither null nor a string, or the text of the very string. |
| `CastRows.CastRefinesRows` | rust/src/dtypes/cast.rs:40-122 | Whatever column the dispatcher gives, each row is the cast of that row: structs by field name over the raw field rows, also those a null struct hides, with nulls for new fields; arrays element by element; JSON both ways; and the storage engine's cast elsewhere. |
| `CastRows.VisibleIsAt` | rust/src/arrow_scalar_extractor.rs:180-292 | What a reader sees of a raw row is the row's value. |
| `CastRows.CastRefinesValues` | rust/src/dtypes/cast.rs:40-122 | A row that hides nothing is cast like its value. |
| `CastRows.NullStructStaysNullExactlyWhen` | rust/src/dtypes/collections.rs:14-63 | A null struct that is cast to a struct type stays null if and only if the types are the same; any other target makes it a valid struct. |
| `CastRows.HiddenRowsComeBackExactlyWhen` | rust/src/dtypes/collections.rs:14-47 | For every target whose shared fields keep their types, that struct shows nothing but nulls if and only if every hidden row of a shared field is null. |
| `CastRows.HiddenRowComesBack` | rust/src/dtypes/collections.rs:14-63 | A column whose only row is null and hides a one: cast to a type with a second field, the row is valid and shows the one. |
| `CastRows.FoundRow` | rust/src/dtypes/collections.rs:14-28 | Under distinct or repeated names, the column of a name holds the raw rows of that name. |
| `Transcript.FindContentEnd` | rust/src/transcript/parsers/generic.rs:123-144 | The content loop stops at the next header line or the end; every slice is in bounds. |
| `Transcript.AccumulateContent` | rust/src/transcript/parsers/generic.rs:123-151 | Content after a header, also when the header ends the input without a newline. |
| `Transcript.ExtractEntries` | rust/src/transcript/parsers/generic.rs:76-159 | The scanner computes its specification and terminates on every input. |
| `Transcript.UnifyEntries` | rust/src/transcript/parsers/generic.rs:161-193 | The second pass with its look-ahead gives all entries, or the error of the first timestamp that is not one. |
| `Transcript.Parse` | rust/src/transcript/parsers/generic.rs:76-194 | The whole parser computes its specification. |
| `Transcript.NoBadTimeExactlyWhen` | rust/src/transcript/parsers/generic.rs:7-66 | No timestamp is bad exactly when all of them can be read. |
| `TranscriptPrinter.HeaderIsRead` | rust/src/transcript/parsers/generic.rs:92-121 | Any header line is read as what stands before its last opening parenthesis and what stands between that and its last closing one, and is one if and only if a digit follows the former. |
| `TranscriptPrinter.HeaderFailsExactlyWhen` | rust/src/transcript/parsers/generic.rs:92-121 | A header is refused if and only if no closing parenthesis follows its last opening one. |
| `TranscriptPrinter.BlanksBeforeEntries` | rust/src/transcript/parsers/generic.rs:82-92 | Newlines, carriage returns and spaces before an entry do not count. |
| `TranscriptPrinter.EntriesKeepText` | rust/src/transcript/parsers/generic.rs:161-193 | Each entry keeps its speaker, or none, and its content, and starts at its own timestamp. |
| `TranscriptPrinter.FirstBadTimestampFails` | rust/src/transcript/parsers/generic.rs:161-193 | The error is that of the first timestamp that cannot be read. |
| `TranscriptPrinter.HeaderParses` | rust/src/transcript/parsers/generic.rs:92-121 | A printed header gives back speaker and timestamp and looks like a header. |
| `TranscriptPrinter.ContentIsTaken` | rust/src/transcript/parsers/generic.rs:123-151 | Lines that do not look like headers are taken as content up to the next one. |
| `TranscriptPrinter.ScanAfterPrinted` | rust/src/transcript/parsers/generic.rs:76-159 | Scanning printed entries followed by anything that starts with a header line gives them, and then what the rest gives. |
| `TranscriptPrinter.ScanOfPrinted` | rust/src/transcript/parsers/generic.rs:76-159 | Scanning the printed entries gives them back. |
| `TranscriptPrinter.ParseOfPrinted` | rust/src/transcript/parsers/generic.rs:76-194 | Parsing the printed entries gives them with times, exactly when all timestamps can be read. |
| `TranscriptPrinter.TimestampMeansSeconds` | rust/src/transcript/parsers/generic.rs:7-66 | Three colon-separated numbers are hours, minutes and seconds. |
| `TranscriptPrinter.ShortTimestamps` | rust/src/transcript/parsers/generic.rs:7-66 | One number is seconds and two are minutes and seconds; blanks around them do not count. |
| `TranscriptPrinter.LongTimestampsFail` | rust/src/transcript/parsers/generic.rs:7-66 | More than three parts are refused. |
| `TranscriptPrinter.TimestampErrorNamesPart` | rust/src/transcript/parsers/generic.rs:7-66 | The error names the first part that is not a number. |
| `TranscriptPrinter.TimesTelescope` | rust/src/transcript/parsers/generic.rs:161-193 | Of every text that parses: indices from one, each end the next start, and durations that sum to last start minus first start. |
| `TranscriptPrinter.UnterminatedLineIsContent` | rust/src/transcript/parsers/generic.rs:127-136 | After any printed entries, a last line without its newline is content of the last entry, even when it is a header. |
| `TranscriptPrinter.TerminatedHeaderIsEntry` | rust/src/transcript/parsers/generic.rs:92-121 | After any printed entries, a header line with its newline opens an entry. |
| `TranscriptPrinter.LastHeaderExactlyWhenTerminated` | rust/src/transcript/parsers/mod.rs:14-19 | After any printed entries, a header line at the end of the text opens an entry if and only if it is terminated. |

## Left out

- Shutdown and cancellation of the model client: the protocol runs until it is stopped, and the branch that drops fetched items at shutdown is not part of this model.
- Provider calls, metrics, logging, progress bars and event-loop setup: a call ends in one of four outcomes chosen by the schedule.
- "Every request eventually resolves" is not a property of the code: timeouts are retried without a counter.
- Clock: `time.time()` is an argument of each step and never runs backwards within a schedule; two readings within one step are the same reading.
- Floating point: rates, times, quantiles, timestamps and column numbers are exact reals, with one value for all that is not finite; rounding to 32 bits and number texts such as "inf" in timestamps are not modelled.
- Dispatch.Apply: `retry_queue.put` and the removal of a finished task are part of the completing step, since neither suspends.
- Batch: fingerprints are opaque texts, and the cache is read once before the submission loop; a cache that fails answers nothing.
- Splitter: the tokenizer is any function from text to a length; without overlap its chunks are not claimed to be the exact text, because a tokenizer could count visible text as zero.
- Splitter: UTF-8 byte offsets are replaced by character positions; lengths in bytes are kept.
- HeadingTree: inline content, lists, tables and quotes are opaque leaves that may fail, and Markdown parsing and JSON serialisation are outside.
- Casts of dates, timestamps, HTML, transcripts and document paths, and the regular expression and template engines: unimplemented in the original or thin wrappers.
- JsonColumns.Convert: columns have the canonical storage types only, so the other integer widths and binary columns of the original are not modelled.
- CastSeries.CastColumn: the storage engine's own casts are a function with two laws, same length and asked-for type, and are row by row where rows are compared.
- JsonColumns.CastToStructs: whether the storage engine refuses repeated field names in a built struct is not modelled; the struct is built.
- CastSeries.CastStructToStruct: the same for repeated names in the target type.
- SplitterBounds.SizeBoundExactlyWhen: a list with a million separators could name every single character and so bound all chunks without the empty separator; such lists are not described.
- Batch.BatchSubmission.SubmitRequest: whether the thread has a recorded exception is an argument here; in `BatchInClient.Apply` the client decides it.
- CastSeries.CastArrayToArray: the list builder is modelled as refusing lists of another element type than its own.
- JsonColumns.ColumnRoundTrip: that a text is read back is asked of the column's own rows, since no text encoding reads back every real number.
- Transcript: UTF-8 validation of slices, which always start and end at ASCII characters; the SRT and WebVTT parsers.
- Schema serialisation, catalog, window frames and the other command-line and evaluation tools: easy structural code that would not add a hard property.
