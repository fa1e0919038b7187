# A model of the in-proxy authorization cache

Envoy worker threads run a filter that authorizes requests against applications cached in shared memory.
On a miss one thread asks 3scale while the others wait; on a hit the quota in the cached copy is charged
with compare-and-swap. A singleton service collects what was authorized and reports it to 3scale. This
project models that behaviour in Dafny and proves what the design promises, over all interleavings of any
number of threads where threads share something, and over all runs where one thread works alone.

`dafny verify dfyconfig.toml` checks everything.

## How it is laid out

- `SharedData`: the host's store. `get` and `set` are its only operations, each atomic.
- `CalloutLock`: the callout lock as a step relation. A step of a thread ends with the one host call it
  makes. Every step adds an event to a trace; `EventOk` says, event by event, what each promises about all
  events before it, in terms of folds over the trace (`HistoryOf`, `CallOf`, `QueueOf`, `TokenOf`) that
  mention no program state. `LockInvariant` proves the inductive invariant; `LockTheorems` reads the results
  off the traces.
- `CalloutFilter`: the filter's methods with their loops and updates. Between two host calls the other
  threads take whatever steps a schedule lists; each method is proved to be a run of the step relation, so
  the theorems hold of it. The schedule is arbitrary, hence so is the interference.
- `RateLimit`: the limit check, as the in-place loop of the code proved equal to a recursive specification,
  and what that specification means. `LimitOutcome` says it again for every input without that
  specification's own notions: window lengths in seconds, decisions and headers in report fields.
  `FixedWindow` compares it with a plain limiter that only remembers authorized requests. `DivMod` holds
  facts about division.
- `Quota` and `QuotaFilter`: charging one application from many threads, in the same two layers as the lock.
  The ledger of a metric (`LedgerOf`) is read off the events alone: what it was granted at its last reset,
  and the hits of the requests charged since.
- `MemoryCounter`: the second compare-and-swap loop, which keeps the count of stored bytes. The other
  threads may write anything between two host calls.
- `Keys`: the strings under which services, applications, locks and the counter are filed.
- `Deltas` and `Singleton`: the nested map of hits, its incremental size, flushes and reports. `MapSums`
  adds up a function over a map.
- `SerialSearch`: the log search of the integration tests.

## What the model assumes

- The store is the one the source describes (`cache-filter/src/unique_callout.rs:72-101`): CAS numbers are
  not reused, no lock or application entry carries CAS 1, and `set` returns Ok or CasMismatch. Elsewhere a
  counter entry may carry 1, the number its initialisation gets.
- Every thread has its own root id, and its queue is named after it.
- Serialization is lossless and has a length; only the memory counter is modelled as bytes.
- A request's metrics are an input, with the order in which its hash map yields them; the order is the same
  for every try of one request.
- Sums of hits and byte counts are unbounded unless the width matters: 64-bit durations, the wrap-around of
  pending hits, the casts to 32-bit integers and the saturating counter are written out.

## Where the code and its remarks part

- A waiter appended between the freeing read and the freeing write is overwritten and never woken. The
  proofs show that the freeing write loses nothing else, and give a run in which this happens.
- "At least 1" window (`threescale/src/utils.rs:38`) holds exactly when a full window length has passed
  since the start. A month counts 30 days, so a window of a 28-day month may end without a roll, and the
  unwrapped subtraction for RateLimit-Reset then fails. `ResetIsDefinedIff` says when it is defined.
- The very end of a window still belongs to it: a request at that instant is charged to the old window.
- When all tries fail, the filter sets the flag that asks the singleton to write the cache, and lets the
  request pass (`cache-filter/src/filter/http.rs:342-348`). The remark there expects a message, but messages
  are sent only for charged requests, before the flag can be set; so such a request is neither charged nor
  reported.
- The test `num_try < max_tries` (`cache-filter/src/filter/http.rs:328`) is always true: after the last
  failed try the application is fetched once more, and a failure of that fetch is the request's outcome.
- A missing memory counter is initialised and then written with CAS 1 (`threescale/src/proxy.rs:160`). That
  write succeeds only if the initialisation was the first write the host ever made.
- Removing an application does not lower the counter (`threescale/src/proxy.rs:197-207`).
- Service ids with an underscore are not kept apart: their keys may coincide, and a report names the pieces
  between the first two underscores. A lock shares its key with an application of a service called `CL`,
  and the counter shares its key with application `MEMORY_COUNTER` of service `SHARED`.

## Model

| member | source | states |
|---|---|---|
| SharedData.CasIdentifiesEntry | cache-filter/src/unique_callout.rs:72-96 | After any writes by anybody, an entry shows the CAS it showed before if and only if it is unchanged: compare-and-swap is free of ABA |
| SharedData.SetMeans | cache-filter/src/unique_callout.rs:72-79 | A write is refused exactly when the key is there and the CAS named is neither 0 nor the stored one, and then changes nothing; an accepted one is what the next read returns, under a new CAS, and touches no other key |
| SharedData.WritesExtend | cache-filter/src/unique_callout.rs:72-79 | Writes never delete an entry, and whatever changed carries a number that did not exist before |
| LockInvariant.RunsKeepInvariant | cache-filter/src/unique_callout.rs:106-337 | The inductive invariant of the lock, the waiters, the queues and the waiting tables holds after every run of any threads |
| LockInvariant.WriteMeans | cache-filter/src/unique_callout.rs:152-252 | A write of the acquisition loop that succeeds found the lock as the thread last read it: absent, held with that list, or free; a refused one was beaten by a newer version |
| LockInvariant.MessageFindsWaiter | cache-filter/src/filter/root.rs:130-141 | The next message of a thread's queue names a context that is in that thread's waiting table, and it is that context's only wake-up |
| LockInvariant.NextWaiter | cache-filter/src/unique_callout.rs:287-306 | The waiter that the notification loop tells next is the next one registered in the trace, and has not been told yet |
| LockTheorems.RunsObeyProtocol | cache-filter/src/unique_callout.rs:106-337 | Every trace of every interleaving keeps the promise of each of its events |
| LockTheorems.MutualExclusion | cache-filter/src/unique_callout.rs:143-253 | Between two acquisitions of one lock, through the first-insert or the reacquire path, lies the freeing write of the first holder |
| LockTheorems.OneHolder | cache-filter/src/unique_callout.rs:116-119 | At every moment at most one context per key has the lock and has not freed it, and the store names its thread as the owner |
| LockTheorems.StoredWaitersAreTheAppends | cache-filter/src/unique_callout.rs:173-218 | The stored waiter list is exactly the appends committed since the acquisition, in commit order: none overwritten, none twice |
| LockTheorems.FreeingTellsEveryAppend | cache-filter/src/unique_callout.rs:276-325 | The messages put out by a freeing are exactly one for each append between acquisition and freeing read, in order, to that waiter's queue, with its id and the holder's kind of action |
| LockTheorems.WaitersAreToldTheDecision | cache-filter/src/unique_callout.rs:287-306 | Message by message: each goes to its waiter's queue, carries that waiter's context id, and is a cache hit exactly if the holder decided for a cache hit when its callout was answered, else a failure |
| LockTheorems.AppendsNameTheAppender | cache-filter/src/unique_callout.rs:126-129 | An appended waiter is the appending context: its own thread's queue and its own id |
| LockTheorems.NeverStray | cache-filter/src/filter/root.rs:132-141 | No message ever misses its context, and no holder ever finds its lock gone |
| LockTheorems.WaitersAreAccountedFor | cache-filter/src/unique_callout.rs:209-218 | A waiting context is listed in a held lock and not yet told, or is named by exactly one undelivered message on its own queue, or its wake-up was missed |
| LockTheorems.FreeingMissesOnlyLateAppends | cache-filter/src/unique_callout.rs:323-325 | The freeing write loses a waiter if and only if it was appended after the freeing read |
| LockTheorems.LateAppendIsLost | cache-filter/src/unique_callout.rs:276-325 | A concrete run after which a context waits although nobody holds the lock and no message is under way |
| LockTheorems.RetryHasForeignCause | cache-filter/src/unique_callout.rs:160-249 | Between the look a refused write relied on and the refusal, another thread committed a write of the same lock |
| LockTheorems.RetriesAreBounded | cache-filter/src/unique_callout.rs:141-256 | The retries of a call are at most the writes of its lock by other threads since the call began |
| LockTheorems.ResponseCameFirstIsSound | cache-filter/src/unique_callout.rs:220-224 | That outcome is returned only if the context saw the lock held during the same call, and a holder freed it after that look |
| LockTheorems.AcquirerNeverSawItHeld | cache-filter/src/unique_callout.rs:201-252 | A context that acquires the lock, or finds it free and goes for it, has not seen it held during that call |
| CalloutFilter.Worker.SetCalloutLock | cache-filter/src/unique_callout.rs:106-257 | The acquisition loop ends under any finite interference, as a run of the protocol whose last event is the outcome returned; it fails exactly without a queue |
| CalloutFilter.Worker.Attempt | cache-filter/src/unique_callout.rs:143-253 | One round is a run of the protocol; without an outcome, another thread took a step and the owner seen is remembered as the protocol says |
| CalloutFilter.Worker.FreeCalloutLockAndNotifyWaiters | cache-filter/src/unique_callout.rs:262-337 | Reading, telling each waiter found and erasing is a run of the protocol that ends with the lock's value erased; the run begins with this context's answer and the action passed in, which are what the messages carry |
| CalloutFilter.Worker.OnQueueReady | cache-filter/src/filter/root.rs:100-210 | One message is taken and exactly its context leaves the waiting table; in a reachable state it is always found |
| RateLimit.RollInPlace | threescale/src/utils.rs:30-57 | The in-place update of start, end and quota is the specified roll, including the half-done state left by an overflow |
| RateLimit.LimitCheck | threescale/src/utils.rs:25-86 | The loop that changes the application in place ends with the application and the verdict of the recursive specification, for every order of the metrics |
| RateLimit.SecondsSuffice | threescale/src/utils.rs:39-42 | Dividing whole seconds gives the same number of windows as dividing the exact span, and the remainder is within one window |
| RateLimit.RollShape | threescale/src/utils.rs:33-57 | A roll moves start and end by the whole windows passed and refills the quota; it fails exactly if the new end overflows |
| RateLimit.RollCatchesUp | threescale/src/utils.rs:33-57 | If the window is at least one length long, the roll is by one or more whole windows, keeps its extent, and the current time is within one length of the new start and not after the new end |
| RateLimit.AtLeastOneWindowIff | threescale/src/utils.rs:38-39 | At least one window has passed exactly when a full length has passed since the start |
| RateLimit.ResetIsDefinedIff | threescale/src/utils.rs:63-76 | The unwrapped subtraction for RateLimit-Reset is defined exactly when the time into the current window fits into the stored window |
| RateLimit.ShortMonthPanics | threescale/src/structs.rs:23-35 | One day after a 28-day month the window is not rolled and the subtraction fails, whatever the quota |
| RateLimit.RollIsIdempotent | threescale/src/utils.rs:33-57 | Rolling twice at one time is rolling once |
| RateLimit.RollIsPathIndependentIff | threescale/src/utils.rs:33-57 | Rolling at one time and again at a later one equals one roll at the later, unless the first roll moved the window and the later time is that window's very end |
| RateLimit.CheckOutcome | threescale/src/utils.rs:27-86 | A request is authorized if and only if every known metric can afford its hits; then exactly its known metrics are rolled and charged, and the headers are those of a tightest limit; otherwise they are those of a metric that cannot afford them |
| RateLimit.AuthorizedHeaders | threescale/src/utils.rs:69-77 | Limit, Remaining and Reset of an authorized request come from one metric with the smallest limit among the known ones |
| RateLimit.OrderDoesNotMatter | threescale/src/utils.rs:27-86 | Two orders of the hash map give the same decision, and if authorized the same application and the same limit |
| LimitOutcome.PeriodLengths | threescale/src/structs.rs:23-35 | A minute is 60 seconds, an hour 60 minutes, a day 24 hours, a week 7 days, a month 30 days and a year 365 days: an ended window is moved by exactly that, and not before that much has passed since its start |
| LimitOutcome.RollCases | threescale/src/utils.rs:33-57 | Every case of a roll, with the fields it leaves: no expiry, a start in the future, whole windows forward, and the half-moved window when the new end cannot be represented |
| LimitOutcome.PassesIff | threescale/src/utils.rs:27-79 | For every input, sane or not: authorized if and only if each known metric rolls, affords its hits, and, where its limit is smaller than all before it, has not ended |
| LimitOutcome.StopsAtFirst | threescale/src/utils.rs:33-66 | Otherwise the first metric at fault decides: overflow, a failed subtraction, or a refusal with its limit, 0 remaining and the whole seconds to its end |
| LimitOutcome.PassedTakes | threescale/src/utils.rs:27-79 | A check that passes rolls and charges each metric of the request and leaves every other metric alone, in any order |
| LimitOutcome.PassedHeaders | threescale/src/utils.rs:69-77 | The headers of an authorized request are limit, rest and whole seconds to the end of the first known metric with the smallest limit, at its new state |
| FixedWindow.RollsToIndex | threescale/src/utils.rs:33-57 | Rolled to the next request's time, the cached report is the fixed window of that time, with the limit less what the log spent in it |
| FixedWindow.ServeMirrors | threescale/src/utils.rs:27-86 | One request is decided as the fixed-window limiter decides it, and the cache, whether written or discarded, still mirrors the log |
| FixedWindow.LazyRefinesEager | threescale/src/utils.rs:27-86 | Over every run of requests in time order off window boundaries, the lazily rolled limiter decides every request as a limiter that sums authorized hits per metric and window |
| FixedWindow.BoundaryDiffers | threescale/src/utils.rs:33 | At every boundary of every metric there is a run of two requests on which the two limiters disagree |
| Quota.RunsObeyQuota | cache-filter/src/filter/http.rs:289-341 | In every interleaving of any number of threads and singleton writes, every event keeps its promise (a charge with nonzero CAS replaces the version it was computed from) and the cache holds what the events say |
| Quota.QuotaIsConserved | cache-filter/src/filter/http.rs:289-341 | At every moment of every run the quota left in the cache is what the metric was granted at its last reset less the hits of all requests charged since |
| Quota.NeverOvercommitted | threescale/src/utils.rs:59-67 | The hits authorized since a metric's last reset never exceed its limit, if no answer of 3scale reports more left than the limit |
| Quota.ChargesAreSerial | threescale/src/proxy.rs:99-115 | Between singleton writes, the application left by concurrent charging is the one left by charging the same requests one after the other in commit order, each of them authorized there too |
| Quota.OneOutcomeEach | cache-filter/src/filter/http.rs:289-341 | Between two ends of requests of one thread it opened another request: no request is charged twice, or charged and refused |
| Quota.MemoryDeltaIsExact | threescale/src/proxy.rs:104-115 | For every write with nonzero CAS that succeeds in any interleaving, the size read in a separate step before it is that of the value replaced, so the delta is new length less replaced length |
| QuotaFilter.Filter.HandleCacheHit | cache-filter/src/filter/http.rs:270-350 | The retry loop is a run of the protocol that ends with the outcome returned; a message goes out exactly for a charged request; a request left to the singleton sets the flag and sends none |
| QuotaFilter.Filter.SetApplicationToCache | threescale/src/proxy.rs:99-115 | Reading the size and the conditional write are two steps of the protocol with others in between; success leaves the charged application in the cache |
| QuotaFilter.Filter.GetCachePairSize | threescale/src/proxy.rs:128-134 | The look at the stored value is one step of the protocol, taken only after a check that passed |
| QuotaFilter.Filter.GetApplicationFromCache | threescale/src/proxy.rs:70-79 | The fetch is one step of the protocol; the copy and CAS returned are those the next try works on |
| MemoryCounter.TotalRoundTrip | threescale/src/proxy.rs:137-145 | Reading eight big-endian bytes gives back the 64-bit total written |
| MemoryCounter.BytesAt | threescale/src/proxy.rs:145 | The bytes of a total are its digits in base 256, most significant first |
| MemoryCounter.InitialBytes | threescale/src/proxy.rs:8 | The initial size is stored as the bytes of 1000 |
| MemoryCounter.DeltaIsTheChange | threescale/src/proxy.rs:104-106 | Whatever the lengths, the delta is new value length less old, reduced to the one signed 32-bit number that differs by a multiple of 2 to the 32 |
| MemoryCounter.SharedMemory.UpdateSharedMemorySize | threescale/src/proxy.rs:137-190 | Under any interference, success means the delta was added once to exactly the total the write replaced, and failure means it was not added; undisturbed it is the specified update |
| MemoryCounter.SharedMemory.AddDelta | threescale/src/proxy.rs:166-178 | The new total for each sign of the delta: reset, subtraction, saturating addition, or a panic for the smallest integer |
| MemoryCounter.SharedMemory.TryThreeTimes | threescale/src/proxy.rs:116-124 | Of three tries at most one adds the delta; and one does, if the counter is in place and the others write it in at most two batches |
| MemoryCounter.SharedMemory.SetApplicationToCache | threescale/src/proxy.rs:99-125 | Of three tries at most one adds the delta, whatever others write meanwhile, and one does if others write a counter in place in at most two batches; a refused write adds nothing |
| MemoryCounter.CounterIsExact | threescale/src/proxy.rs:99-190 | In every run of one thread the counter is 1000 plus the total length of cached applications plus the lengths lost to removals |
| MemoryCounter.CounterShowsLosses | threescale/src/proxy.rs:192-207 | The counter is 1000 plus the total length of cached applications if and only if nothing was lost to removals |
| MemoryCounter.ResetIsUnreachable | threescale/src/proxy.rs:168-173 | No write of an application can bring a correct counter below its initial size, so the branch called not possible is not taken |
| MemoryCounter.MissingCounterCostsOneTry | threescale/src/proxy.rs:147-161 | With the counter missing, the first try succeeds if and only if the host had never written before; three tries always put the delta in |
| Deltas.UpdateAddsHits | singleton-service/src/service/deltas.rs:50-170 | An update adds exactly the message's hits to exactly its service key, application and metrics, up to 64-bit wrap-around |
| Deltas.HitsOfMeans | singleton-service/src/service/deltas.rs:128-135 | A message's hits count for service id, underscore and token, and for the application id or user key, whatever the application key |
| Deltas.AppKeysShareAnEntry | threescale/src/structs.rs:170-200 | Two messages with one application id and different application keys add up in one entry, under the first one's identifier |
| Deltas.UpdateKeepsIdentifiers | singleton-service/src/service/deltas.rs:59-81 | An update never changes the identifier an application is filed under, and files a new one under the message's |
| Deltas.IncreaseIsExact | singleton-service/src/service/deltas.rs:54-107 | In all four cases the increment is the difference of the sizes recomputed from the nested maps |
| Deltas.StoreIsFlat | singleton-service/src/service/deltas.rs:89-104 | The recomputed size is services times (string + map) plus applications times (identifier + map) plus metrics times (string + number) |
| Deltas.MetricsProduct | singleton-service/src/service/deltas.rs:92-94 | Each metric counts for one string and one number |
| Deltas.DeltaStore.UpdateAppDelta | singleton-service/src/service/deltas.rs:137-152 | Merging metric by metric in any order gives the merged map and the size of the metrics that were new |
| Deltas.DeltaStore.AddAppDelta | singleton-service/src/service/deltas.rs:154-170 | The application is filed with the message's metrics, and the size reported is that of its entry |
| Deltas.DeltaStore.UpdateDeltaStore | singleton-service/src/service/deltas.rs:50-117 | The store becomes the updated one, its count grows by the increase unless the mode is periodical, which keeps it equal to the sum over services, applications and metrics, and Flush is returned exactly at or above the capacity cut to 32 bits |
| Deltas.DeltaStore.FlushDeltaStore | singleton-service/src/service/proxy.rs:351-359 | The whole contents are handed out, and the store and its count are empty |
| Deltas.CollectUsage | singleton-service/src/service/report.rs:49-52 | The usage list names every metric once, with its hits |
| Deltas.MakeReport | singleton-service/src/service/report.rs:41-59 | The report has exactly the applications of the service, each with its identifier and a complete usage list; it fails exactly for a key without underscore |
| Deltas.ReportTells | singleton-service/src/service/report.rs:45-59 | What a report says of a metric is what was pending for it, and nothing of others |
| Deltas.FlushReportsPending | singleton-service/src/service/proxy.rs:364-384 | The reports of one flush together say exactly what was pending: nothing missing, nothing twice |
| Singleton.SingletonService.FlushLocalCache | singleton-service/src/service/proxy.rs:364-383 | One report is built for every service and no other, the store is empty, and a report is under way exactly under the token of its call, if the host took the call |
| Singleton.SingletonService.OnQueueReady | singleton-service/src/service/proxy.rs:164-200 | A message is filed and the store flushed when full; a token is remembered for its application unless there is one; a failed cache update files nothing |
| Singleton.SingletonService.OnTick | singleton-service/src/service/proxy.rs:208-220 | A tick flushes except in container-limit mode |
| Singleton.HitsAreConserved | singleton-service/src/service/proxy.rs:164-220 | In every run of messages and ticks, per service key, application and metric, hits consumed are hits in all reports built plus hits pending plus whole wrap-arounds |
| Singleton.HitsAreConservedExactly | singleton-service/src/service/proxy.rs:164-220 | If the hits consumed fit into 64 bits the two sides are equal |
| Singleton.MemoryIsExact | singleton-service/src/service/deltas.rs:106-117 | Except in periodical mode the incremental size is at all times the sum over services, applications and metrics, and below capacity after every callback |
| Singleton.FlushesIffFull | singleton-service/src/service/proxy.rs:183-190 | In every run, a message empties the store if and only if that sum, with its hits filed, reaches the capacity cut to 32 bits |
| Singleton.ModesDecide | singleton-service/src/service/proxy.rs:208-220 | A tick reports and empties everything in periodical and default mode and changes nothing in container-limit mode; in periodical mode a message never flushes |
| Singleton.ReportsNameTheirService | singleton-service/src/service/report.rs:45-58 | Without underscores in ids and tokens, every report built names the service and token of the messages filed under its key, and of no others |
| Singleton.FiledUnderFirst | singleton-service/src/service/deltas.rs:57-81 | In every run, a pending application carries the identifier of the first message for it since the store was last empty |
| Singleton.ReportsNameTheirApplications | singleton-service/src/service/report.rs:47-54 | In every report of every run, each application is named by the identifier, with its application key, of the first message for it since the store was last empty |
| Keys.RoundTripIff | singleton-service/src/service/report.rs:45-58 | Printing and reading a service key are inverse if and only if neither part holds an underscore |
| Keys.ParseJoined | singleton-service/src/service/report.rs:45-58 | What reading a printed key returns in every case |
| Keys.CollideIff | singleton-service/src/service/deltas.rs:83-87 | Two pairs print alike if and only if they are equal or one is the other with a piece moved across the underscore |
| Keys.KeysAreInjective | singleton-service/src/service/deltas.rs:128-135 | With ids free of underscores two services never share a key |
| Keys.IdsCanCollide | singleton-service/src/service/deltas.rs:128-135 | Otherwise they can, and the report then names neither |
| Keys.CacheKeyPrints | threescale/src/proxy.rs:30-32 | A cache key is service id, underscore, and the application id or user key; the application key is not in it |
| Keys.SameCacheKeyIff | threescale/src/proxy.rs:57-67 | For service ids without underscores, by constructors: cache keys are equal exactly when service ids are and application ids or user keys are, whatever the application keys and the kind of identifier |
| Keys.LockKeysAreApart | cache-filter/src/unique_callout.rs:107 | A lock's key is `CL_` and the cache key; locks of different cache keys are different, and a lock's key is an application's exactly for the service named like the prefix |
| Keys.CounterKeyIsAnAppKey | threescale/src/proxy.rs:7 | Exactly one application id or user key, `MEMORY_COUNTER` of service `SHARED`, is filed under the counter's key |
| SerialSearch.Search | integration-tests/main.go:93-109 | Greedy search succeeds if and only if strictly increasing positions exist that match all patterns in order, for any notion of matching |

## Left out

- LockTheorems.FreeingTellsEveryAppend: counts a message the host refuses as put out, because the code goes on to the next waiter; the waiter's wake-up is then recorded as missed.
- LockTheorems.WaitersAreAccountedFor: does not promise that a waiter is ever woken, because late appends and refused messages are lost and some callouts never free the lock (`cache-filter/src/filter/http.rs:543`).
- CalloutFilter.Worker.SetCalloutLock: ends only under finite interference; other threads that write for ever can keep it going round.
- CalloutFilter.Worker.OnQueueReady: models the waiting table; what the resumed context then does is `QuotaFilter`.
- FixedWindow.LazyRefinesEager: needs windows of one length, requests off window boundaries, and times a year short of the largest duration; `BoundaryDiffers` shows what happens on a boundary.
- Quota.NeverOvercommitted: assumes that no answer of 3scale reports more left than the limit; `QuotaIsConserved` needs no such assumption.
- Quota.MemoryDeltaIsExact: says nothing of writes with CAS 0, which may replace another value than the one measured.
- QuotaFilter.Filter.HandleCacheHit: charges and refetches one key; the code names the key once from the application and once from the request, which agree once a user key has been replaced by its application id.
- MemoryCounter.CounterIsExact: is about runs of one thread, because concurrent writes of one application may each miss the other's size; under interference the claim is that of `SetApplicationToCache`.
- Deltas.DeltaStore.UpdateAppDelta: takes and returns the inner map as a value, so updating it in place through a reference is not modelled; the maps are not shared.
- Deltas.MakeReport: keeps hits as numbers; their decimal printing is not modelled.
- Singleton.SingletonService.FlushLocalCache: stops before the authorize calls, whose answers appear in `Quota` only as overwrites and removals; whether a report reaches 3scale is the host's affair.
- The reading of an answer in `handle_auth_response`, where a usage above its limit makes the subtraction behind `left_hits` fail; what 3scale grants is an input.
- Http callouts, headers, XML, JSON and binary formats, URLs and the request builders.
- `add_hierarchy_to_metrics`, which iterates a map it also borrows for writing; request metrics are an input.
- Status codes other than Ok and CasMismatch, and the reuse of CAS numbers after 32 bits.
- That a request gets exactly one answer: failure handling both sends a response and resumes.
- Logging, metrics gauges, configuration parsing, seeding of random numbers, thread ids.
- The rest of the integration tests, benchmarks and deployment files.
