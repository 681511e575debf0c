# Market-data service: a verified model

This project models the stateful engines of the market-data service and the local-first
K-line query built on top of them, and proves what holds over whole runs of them.

| files | what they model |
|---|---|
| `PoolModel`, `PoolLaws`, `PoolFairness`, `Breaker`, `PoolDrain`, `SourcePool`, `Ring` | the leased client pool: round-robin scans, generation-stamped leases, a circuit breaker per host, wake-ups, and draining on close |
| `Bars`, `Gaps`, `KLinePages`, `BarStore`, `MemoryStore`, `MarketData`, `MarketLaws`, `MarketAnswers`, `MarketRaces`, `StampLaws` | the K-line query: date filters, merging, gap detection, the provider's paged walk, the in-memory store, the cache, what a query answers, and what many at once do |
| `BackfillQueue`, `MemoryStore` | the backfill queue of the in-memory store |
| `Securities`, `SecurityLaws` | the security list: paged fetch of whole markets, local filter, sort and page |
| `Coverage` | the coverage rows of the SQL store, in its three dialects |
| `SingleFlight` | sharing of concurrent loads |
| `ProviderRuntime` | the provider that arrives late, and its shutdown |
| `TokenBucket` | the request limiter |

Every mutex-held section of the pool is one step, given first as a function on values
(`PoolModel.Apply`); the classes of `SourcePool` update their fields in place as the source
does and are proved against those functions, and the laws are about runs of them. The other
objects follow the same plan. Protocols (`PoolDrain`, `SingleFlight`, `ProviderRuntime`, `MarketRaces`) are
state machines whose runs are arbitrary interleavings of the callers' steps.

## What the code does not promise

Where the code falls short of what one might expect of it, the exact condition is proved.

- Without dates, a K-line request is served page by page, newest page first. The answer is
  in time order exactly if one page was enough, or if there were just two of which the second
  has wrapped around its 16-bit offset to newer bars (`KLinePages.PageWalkOrder`); the default
  count of 800 is one more than a page. It is the requested window exactly if the 16-bit
  offset does not overflow while data remains (`KLinePages.PageWalkIsWindow`).
- A start offset is applied twice to what a full fetch returns, by the provider and by the
  service: with dates, the answer skips 2 * start of the bars that the dates select
  (`MarketAnswers.FullAnswerByIndex`); an answer from the store or after a gap fill skips
  `start` (`MarketAnswers.LocalAnswerByIndex`, `MarketAnswers.GapAnswerByIndex`).
- A query answered from the cache or the store can leave out upstream bars, but only bars
  between two returned ones at most 21 days apart, or near the end of the range
  (`MarketLaws.EveryAnswerIsFaithful`). A forced refresh leaves out none within the walk's
  reach of 66317 bars (`MarketLaws.RefreshIsExact`).
- Bars stamped after midnight on the last day of a gap are not fetched with it. A gap fill
  brings in all bars of the days of its gaps exactly if the store has those
  (`StampLaws.FillIsCompleteExactlyWhen`); `StampLaws.NoonBarIsLost` is an input for which a
  bar is missed however often it is asked for. Bars stamped with their day are not affected.
- A market asked for twice yields its rows twice: before paging, the security query is exact
  if and only if no market with a row that the query keeps is repeated
  (`SecurityLaws.RewriteExactWhen`).
- A backfill task whose explicit id is in use takes the id over, and the older task can no
  longer be updated (`BackfillQueue.IdInUseShadows`).
- An Update can give a task other work than the one it is kept under, and that is the only
  call that does (`BackfillQueue.LabelsKeptExactlyWhen`). Work is given out twice only if it
  was put back in between or a task had been relabelled to it (`BackfillQueue.GivenTwiceWhy`);
  and after such an Update the calls of Next that follow do give it out twice exactly if both
  the relabelled task and the one kept under that work are eligible
  (`BackfillQueue.RelabelledIsGivenTwiceWhen`).
- Repeating the last coverage write to a key changes nothing but the update time, except in
  two cases: a covered first write keeps an error text that its repetition clears, and a
  covered write that leaves its fetch time to the clock moves the stored time on
  (`Coverage.RepeatedWrite`). Repeating an earlier write keeps the row count, and everything
  else exactly if it leaves the texts of the row and the fetch time
  (`Coverage.ReplayedWrite`).
- The provider's close hook need not run although Close was called: the call can give up
  on its context between the hand-over and the closing of `done`
  (`ProviderRuntime.HookMayNeverRun`, `ProviderRuntime.HookRanExactlyWhen`).

## Model

| member | source | states |
|---|---|---|
| `Ring.ScanFindsNearest` | internal/source/pool.go:584-598 | a round-robin scan fails only if nothing qualifies, and otherwise settles on the qualifying position nearest to the cursor in cyclic order |
| `Ring.DistIsSteps` | internal/source/pool.go:584-586 | the distance from the cursor is the number of steps, modulo the number of hosts, to a position |
| `Ring.CursorApproaches` | internal/source/pool.go:595 | serving one position and moving the cursor past it brings every position that was no nearer strictly nearer |
| `PoolModel.NextIdleFindsSlot` | internal/source/pool.go:713-727 | the client scan fails exactly on a host without an idle client, and otherwise takes the idle client nearest to the cursor |
| `PoolModel.ChooseFindsHost` | internal/source/pool.go:580-599 | the host scan fails exactly when no host is eligible with an idle client, and otherwise takes the nearest one |
| `PoolLaws.AcquireByHost` | internal/source/pool.go:298-335 | host by host, what one turn of Acquire leaves behind: the granted client was idle, its generation goes up by one, due circuits may be half-opened, and nothing else changes |
| `PoolLaws.AvailableExactlyWhen` | internal/source/pool.go:699-711 | a host may serve a lease exactly if a client is idle and its circuit is closed, or half-open by then with no lease out |
| `PoolLaws.GrantTouches` | internal/source/pool.go:316-330 | the client taken is the idle one nearest to the host's cursor, which moves just past it; it is in use with the next generation; and of the rest of the host only the in-flight count and the probe flag change |
| `PoolLaws.ReturnTouches` | internal/source/pool.go:346-357 | a returned lease leaves its client idle with its generation and ends a probe, and changes nothing else |
| `PoolLaws.SnapshotTouches` | internal/source/pool.go:453-490 | a snapshot half-opens every open circuit whose time is up, and changes nothing else |
| `PoolLaws.ReleaseKeepsInv` | internal/source/pool.go:350-357 | a successful release lowers inFlight by one; the clamp at zero is never needed |
| `PoolLaws.ApplyKeepsInv` | internal/source/pool.go:298-450 | every section keeps: inFlight is the number of busy clients, a half-open probe is the host's only lease, a closed circuit has not seen the failure threshold |
| `PoolLaws.ReachableInv` | internal/source/pool.go:103-121 | those facts in every state a new pool can reach, with the number of clients unchanged |
| `PoolLaws.SpentForever` | internal/source/pool.go:346-349 | a lease once returned or superseded stays so over any run |
| `PoolLaws.SecondReleaseFails` | internal/source/pool.go:346-349 | in any run a second release of a lease fails and changes nothing, whatever happened in between |
| `PoolLaws.StaleReleaseFails` | internal/source/pool.go:346-349 | releasing a lease whose client has been granted again fails and changes nothing, so it never returns the newer lease |
| `PoolLaws.OneLiveLeasePerClient` | internal/source/pool.go:346-349 | at any moment at most one lease of a client can be released |
| `PoolLaws.GrantsAreDistinct` | internal/source/pool.go:317-330 | no two grants of a run hand out the same lease |
| `PoolLaws.LeasesConserved` | internal/source/pool.go:663-669 | over any run, leases in flight are those at the start plus grants minus successful releases |
| `PoolLaws.TotalsAddUp` | internal/source/pool.go:484-488 | with the invariant, the totals of a health view add up: every client is idle or leased |
| `PoolLaws.ProbeIsExclusive` | internal/source/pool.go:321-323 | a lease granted from a half-open host stays that host's only outstanding lease until it is released or the circuit closes, whatever is reported, released, looked at or acquired in between |
| `PoolFairness.ServedWithinOneLap` | internal/source/pool.go:584-596 | a host that every scan of a run finds eligible with an idle client is served among any len(hosts) acquires |
| `PoolFairness.ClientServedWithinOneLap` | internal/source/pool.go:713-727 | a client that is idle whenever its host is given a lease gets one of any len(clients) leases of the host |
| `PoolFairness.NothingIdleMeansNoneAvailable` | internal/source/pool.go:580-599 | an acquire turn of an open pool comes back empty exactly when no host is eligible with an idle client |
| `PoolFairness.WakeAfterFailedScan` | internal/source/pool.go:601-615 | after a failed scan no circuit is past due, so the early return is dead, and the wake-up is the earliest expiry of an open circuit with an idle client, in the future |
| `PoolFairness.NoMissedWake` | internal/source/pool.go:314-333 | after a failed scan, no sequence of further scans and snapshots grants anything before the computed wake-up, or ever if there is none |
| `PoolFairness.WakeIsTight` | internal/source/pool.go:601-615 | at the wake-up time itself a scan succeeds exactly if a host whose circuit expires then has no lease outstanding |
| `Breaker.FoldMeaning` | internal/source/pool.go:439-446 | the reference breaker read off the reports: healthy with the trailing failure run below the threshold, or tripped until one timeout after the last failure with fewer probes than needed |
| `Breaker.TrailingFailuresMeaning` | internal/source/pool.go:427-431 | a failure run of n means that the last n reports are failures |
| `Breaker.LastFailureMeaning` | internal/source/pool.go:427-433 | the last failure is one after which only successes were reported |
| `Breaker.TripsExactlyAfterFailures` | internal/source/pool.go:439-446 | a circuit that is not tripped trips exactly when the last threshold reports are all failures |
| `Breaker.FailureTripsAnew` | internal/source/pool.go:439-441 | a tripped one is tripped anew by every failure, from its time on |
| `Breaker.ClosesExactlyAfterProbes` | internal/source/pool.go:402-407 | a tripped circuit closes exactly when the last threshold reports are successes made no earlier than one timeout after the last failure |
| `Breaker.BreakerRefinesReports` | internal/source/pool.go:743-767 | at every moment of any run the lazily refreshed circuit agrees with the reference run on the host's reports alone, the failure counter is the trailing failure run, and the totals are the numbers of successes and of failures reported |
| `Breaker.OpenHostNeverLeased` | internal/source/pool.go:699-711 | no lease is granted on a host within one timeout of the failure that tripped or re-tripped its circuit |
| `Breaker.CircuitAfterReport` | internal/source/pool.go:387-450 | in every reachable pool: a report opens a closed circuit exactly if the last threshold reports are failures, reopens any other on a failure, and closes a half-open one exactly if the last threshold reports are successes made late enough; an opened one stays open for one timeout |
| `Breaker.GrantedExactlyWhen` | internal/source/pool.go:298-335 | in every reachable pool an acquire turn is granted exactly if some host has an idle client and by its reports is healthy, or past its timeout with no lease out |
| `PoolDrain.StepKeepsInv` | internal/source/pool.go:493-578 | every step of any number of Close calls, the background drain and lease traffic keeps the closing protocol's invariant |
| `PoolDrain.ExactlyOneOwner` | internal/source/pool.go:505-523 | in any run, while the pool is closing exactly one caller or background goroutine owns the drain, and otherwise nobody does |
| `PoolDrain.HookRunsOnce` | internal/source/pool.go:550-553 | each client's close hook runs at most once, and has run exactly once when the pool is closed |
| `PoolDrain.NoGrantOnceClosing` | internal/source/pool.go:307-309 | once any Close call has started closing, no lease is ever granted again |
| `PoolDrain.HooksOnlyWhenDrained` | internal/source/pool.go:526-553 | a client is closed only while the pool is closing and no lease is outstanding, and none is outstanding ever after |
| `PoolDrain.HooksInOrder` | internal/source/pool.go:542-553 | clients are closed host by host, and those of a host in the order they were made |
| `PoolDrain.FinishedClosesAgree` | internal/source/pool.go:499-515 | Close calls that do not end by their context return the same error, after every client has been closed |
| `PoolDrain.CloseAnswersFailures` | internal/source/pool.go:550-565 | a Close call that is not cut short answers with the failures of all close hooks, in the order they were called: with none exactly if no hook failed |
| `PoolDrain.GaveUpAfterExpiry` | internal/source/pool.go:507-510 | a Close call answers with its context's error only after the context has ended |
| `PoolDrain.LooksEndWaits` | internal/source/pool.go:505-541 | a look ends the wait exactly if the pool is closed or the context has ended, and that of the owner exactly if no lease is out or its context has ended |
| `PoolDrain.BackgroundFinishes` | internal/source/pool.go:567-578 | the background goroutine is never cut short: it owns the drain until the pool is closed |
| `PoolDrain.OwnerCanMove` | internal/source/pool.go:529-565 | while the pool is closing, its one owner has a step of its own to make |
| `PoolDrain.DrainCompletes` | internal/source/pool.go:529-578 | once the pool is closing with no lease out, as many steps of its owners as there are clients, and three more, close it, whatever else goes on and through a hand-over |
| `SourcePool.HostPool.constructor` | internal/source/pool.go:247-249 | a new host is healthy, idle and has no history |
| `SourcePool.HostPool.RefreshCircuit` | internal/source/pool.go:743-750 | half-opens an open circuit whose timeout is over, in place |
| `SourcePool.HostPool.OpenCircuit` | internal/source/pool.go:752-758 | opens the circuit until one timeout from now, in place |
| `SourcePool.HostPool.CloseCircuit` | internal/source/pool.go:760-767 | closes the circuit and clears its history, in place |
| `SourcePool.HostPool.IdleClients` | internal/source/pool.go:729-741 | counts the clients that are not busy |
| `SourcePool.HostPool.NextIdleClient` | internal/source/pool.go:713-727 | takes the idle client nearest to the cursor and moves the cursor past it, or fails and moves nothing |
| `SourcePool.HostPool.RecordSuccess` | internal/source/pool.go:396-410 | what a success report does to its host, and what the host notes of it for its health view |
| `SourcePool.HostPool.RecordFailure` | internal/source/pool.go:426-446 | what a failure report does to its host, and what the host notes of it for its health view |
| `SourcePool.HostPool.GrantClient` | internal/source/pool.go:318-323 | an idle client becomes busy with the next generation, as a probe if the circuit is half-open |
| `SourcePool.HostPool.ReleaseClient` | internal/source/pool.go:350-357 | a busy client becomes idle again, and a probe is over |
| `SourcePool.HostPool.State` | internal/source/pool.go:464-482 | the health view of one host shows its fields and its idle clients |
| `SourcePool.HealthMeaning` | internal/source/pool.go:464-487 | a host is shown healthy exactly if it has clients and its circuit is closed, or half-open with no lease out; its clients are the idle and the leased ones |
| `SourcePool.Normalize` | internal/source/pool.go:176-212 | settings pass exactly if there is a host and none is negative; zero settings take the defaults, and others are used as given |
| `SourcePool.HostSize` | internal/source/pool.go:230-245 | an empty address, one already taken or a negative number of clients is an error, in that order; otherwise the given or default size |
| `SourcePool.Pool.MakeClients` | internal/source/pool.go:251-279 | a host gets the clients the factory yields for it, without skipping exactly the wanted number; what was made is what is kept, and the client made just before the context ended |
| `SourcePool.Pool.Gather` | internal/source/pool.go:225-290 | what was made is what the hosts built so far keep and the spare client; success means distinct addresses, every host with its clients, no spare, and the minimum of ready clients met |
| `SourcePool.Pool.CloseInitialized` | internal/source/pool.go:679-686 | the walk over the hosts built so far closes their clients, each once and in order |
| `SourcePool.Pool.NewPool` | internal/source/pool.go:172-295 | on failure the clients closed, host by host and then the spare one, are all that the factory made, each once and in order, and the error names what is so; on success none is closed, and the pool is fresh, valid, indexed by address, with the normalised settings and every host holding the clients the factory yields for it, all of the wanted number unless clients may be skipped |
| `SourcePool.Pool.GatherHost` | internal/source/pool.go:225-279 | one host: validated, and staffed with what the factory yields for it |
| `SourcePool.Pool.YieldByIndex` | internal/source/pool.go:251-285 | where the factory does not fail, its clients are taken in order |
| `SourcePool.Pool.constructor` | internal/source/pool.go:214-221 | a new pool is open and its hosts are idle |
| `SourcePool.Pool.NextAvailable` | internal/source/pool.go:580-599 | the scan over hosts in place, host by host from the cursor on, settles where the value-level scan does, cursors included |
| `SourcePool.Pool.Grant` | internal/source/pool.go:317-330 | the granted client becomes busy with the next generation, and the lease names it |
| `SourcePool.Pool.TryAcquire` | internal/source/pool.go:306-334 | one turn of Acquire is the step Take: refused when closing, then given up if the context has ended, else a lease, else the wake-up time |
| `SourcePool.Pool.NextWake` | internal/source/pool.go:601-615 | the loop computes the wake-up time of the value-level pool |
| `SourcePool.Pool.Release` | internal/source/pool.go:338-360 | a lease of the pool is released as the step Return; any other is refused and changes nothing |
| `SourcePool.Pool.ReportSuccess` | internal/source/pool.go:387-414 | the report reaches the host of that address, and no other, which alone notes it; an unknown address is an error |
| `SourcePool.Pool.ReportFailure` | internal/source/pool.go:417-450 | the same for failures |
| `SourcePool.Pool.HealthSnapshot` | internal/source/pool.go:453-490 | a snapshot half-opens due circuits and changes nothing else; it shows every host as it then is, and the totals |
| `SourcePool.Pool.InFlight` | internal/source/pool.go:663-669 | the sum over the hosts |
| `SourcePool.Pool.EnterClose` | internal/source/pool.go:499-523 | the first section of Close is the protocol's step Enter |
| `SourcePool.Pool.AwaitClosed` | internal/source/pool.go:505-515 | one look of a waiting Close is the step Await |
| `SourcePool.Pool.DrainSection` | internal/source/pool.go:527-548 | one look of the drain's owner is the step Drain, and the copied clients are those of all hosts in order |
| `SourcePool.Pool.ScheduleBackgroundClose` | internal/source/pool.go:567-578 | the hand-over leaves the pool as the protocol says |
| `SourcePool.Pool.CopyClients` | internal/source/pool.go:542-547 | the clients of all hosts, each once and in order |
| `SourcePool.Pool.PublishClose` | internal/source/pool.go:557-563 | the last section of finishClose is the step Publish |
| `SourcePool.ScanIsAcquire` | internal/source/pool.go:584-598 | where that scan ends is where the value-level Acquire grants |
| `Bars.FilterBarsByDate` | internal/service/market_data.go:450-464 | keeps the bars from midnight of the start date up to the very end time; a zero bound is none |
| `Bars.FilterMeaning` | internal/service/market_data.go:450-464 | a filter by date keeps, in order, exactly the bars from midnight of the start date to the very end time, an unset date being no bound |
| `Bars.MidnightMeaning` | internal/domain/parse.go:62-68 | a date is normalised to the last whole day, of 86400 seconds, at or before it |
| `Bars.SliceIsPage` | internal/service/market_data.go:771-789 | a slice skips start bars and has at most count of them, or all that are left if count is zero, item by item |
| `Bars.WithinKeeps` | internal/service/market_data.go:450-464 | exactly the bars in range are kept, and their order |
| `Bars.MergeBars` | internal/service/market_data.go:499-515 | two passes over a map, read back in any order and sorted, are the merge |
| `Bars.MergeMeaning` | internal/service/market_data.go:499-515 | a merge is strictly ordered and holds, at every time of either list, one bar, from the right list if it has one |
| `Bars.AnyReadOrder` | internal/service/market_data.go:507-513 | the sorted result does not depend on the order in which the map is read |
| `Bars.MergeTwice` | internal/history/memory_store.go:224-236 | two merges in a row are one merge of the concatenation |
| `Bars.WithinOfMerge` | internal/service/market_data.go:408 | filtering a merge is merging the filtered lists |
| `Gaps.BarGapsForRequest` | internal/service/market_data.go:597-630 | the loop over in-range bars computes the gaps of the request |
| `Gaps.GapsSound` | internal/service/market_data.go:597-630 | gaps are non-empty, ordered, disjoint, within the range, and none contains the day of an in-range bar |
| `Gaps.GapsComplete` | internal/service/market_data.go:615-628 | every day outside all gaps has an in-range bar on it, or one before it with the next bar or the end of the range at most 21 days later |
| `Gaps.GapsExact` | internal/service/market_data.go:597-630 | a day of the range is in no gap exactly if it is bridged in that way |
| `Gaps.RequestGapsExact` | internal/service/market_data.go:597-630 | the same for the gaps of a daily request on any time-ordered bars, whatever their stamps |
| `KLinePages.FetchKLinePage` | internal/provider/gotdx/provider.go:1079-1103 | the page loop with its 16-bit offset is the page walk |
| `KLinePages.FetchKLineRange` | internal/provider/gotdx/provider.go:1105-1137 | the prepending walk is the range walk, and every offset it passes upstream is its page number times 799, below 65536 |
| `KLinePages.GetBars` | internal/provider/gotdx/provider.go:1043-1069 | fetch by page or by range, filter by date, slice |
| `KLinePages.DatedIsPage` | internal/provider/gotdx/provider.go:1024-1077 | with a date, start and count cut a page out of what the dates select |
| `KLinePages.RangeWalkIsLeast` | internal/provider/gotdx/provider.go:1105-1137 | with a date, the walk collects whole pages of 799 back from the newest bar, no more than it needs to get to the start date or else the end date, and at most 83 |
| `KLinePages.UndatedIsPage` | internal/provider/gotdx/provider.go:1024-1103 | without dates, the provider asks for the window of count bars, or 800, behind the start newest, and takes the page of it that skips start once more |
| `KLinePages.UndatedIsNewest` | internal/provider/gotdx/provider.go:1024-1103 | so without a start it returns the newest count bars, or 800, each once, and in order if they fit a page |
| `KLinePages.ProviderBarsFrom` | internal/provider/gotdx/provider.go:1057-1068 | whatever is asked for, only bars of the series within the dates are returned |
| `KLinePages.RangeIsExact` | internal/provider/gotdx/provider.go:1105-1137 | with a start date and no paging, exactly the bars of the range among the newest 66317, in time order and each once |
| `KLinePages.PageWalkIsWindow` | internal/provider/gotdx/provider.go:1079-1103 | a paged request returns each bar of its window once and nothing else, exactly if its offset does not overflow while data remains |
| `KLinePages.PageWalkOrder` | internal/provider/gotdx/provider.go:1079-1103 | its answer is in time order exactly if one page was enough, or two of which the second has wrapped around to newer bars |
| `BarStore.PutKeepsOrder` | internal/history/memory_store.go:221-237 | every table stays strictly ordered by time |
| `BarStore.PutMeaning` | internal/history/memory_store.go:198-239 | after a batch, the store has for every time of every series the last bar of the batch for it, and else what it had |
| `BarStore.QueryMeaning` | internal/history/memory_store.go:241-276 | what is read are exactly the bars of the series within the times, in order, or no-data if there is none |
| `BarStore.NotStorableExactlyWhen` | internal/history/memory_store.go:206-216 | a bar is refused exactly if its symbol is incomplete or its period or time missing |
| `BarStore.PutTwice` | internal/history/memory_store.go:198-239 | storing two batches is storing their concatenation |
| `BarStore.PutIdempotent` | internal/history/memory_store.go:198-239 | storing a batch again changes nothing |
| `BarStore.MergedAnswerIsQuery` | internal/service/market_data.go:403-408 | answering from local and fetched bars is answering from the store after the fetched ones were put into it |
| `MemoryStore.MemoryStore.constructor` | internal/history/memory_store.go:32-42 | a new store is empty |
| `MemoryStore.MemoryStore.PutCoverage` | internal/history/memory_store.go:69-85 | a coverage row replaces the one of its key, with an empty status read as covered |
| `Coverage.ReplaceTouches` | internal/history/memory_store.go:69-85 | the row of the day is replaced by the one given, and no other; a covered day stays so exactly if the new status is covered or empty |
| `MemoryStore.MemoryStore.PutBars` | internal/history/memory_store.go:198-239 | a batch with an invalid bar is rejected whole; any other is merged in, series by series |
| `MemoryStore.MemoryStore.Grouped` | internal/history/memory_store.go:206-219 | each series gets its bars of the batch, in batch order |
| `MemoryStore.MemoryStore.QueryBars` | internal/history/memory_store.go:241-276 | the bars of the series in the time range, or no-data if there are none |
| `MemoryStore.MemoryStore.Enqueue` | internal/history/memory_store.go:278-315 | the queue afterwards and the reply, with defaults and validation |
| `MemoryStore.MemoryStore.Next` | internal/history/memory_store.go:317-344 | the scan marks and returns the task that the queue's order picks |
| `MemoryStore.MemoryStore.Update` | internal/history/memory_store.go:346-363 | the task of that id is replaced; an empty or unknown id is an error |
| `MarketData.Fetch` | internal/service/market_data.go:237-251 | one call of the upstream: the provider's bars, or its failure |
| `MarketData.FetchBarGaps` | internal/service/market_data.go:471-489 | the bars of all gaps in gap order, or the first failure |
| `MarketData.MarketDataService.EnqueueTask` | internal/service/market_data.go:632-641 | the task goes to the queue if there is one, and a refusal is ignored |
| `MarketData.MarketDataService.FillGaps` | internal/service/market_data.go:394-416 | the gap path: answer, stored bars, cache entry, and the task queued on failure |
| `MarketData.MarketDataService.FetchAll` | internal/service/market_data.go:424-447 | the full-fetch path, in the same terms, and the coverage row it writes |
| `MarketData.MarketDataService.GetBars` | internal/service/market_data.go:362-448 | the whole query in place, a full fetch being served by another caller's load if one with the same key is running: answer, store, cache, coverage rows and backlog are those of the value-level query |
| `MarketLaws.QueryKeepsGood` | internal/service/market_data.go:362-448 | no request, for this series or another, puts anything but bars of the upstream series into its table or its cached ranges, or disturbs their order |
| `MarketLaws.GapAnswerContents` | internal/service/market_data.go:394-415 | the answer after a gap fill holds exactly the local bars and the upstream bars within reach whose day lies in a gap |
| `MarketLaws.CacheAnswerFaithful` | internal/service/market_data.go:373-379 | an answer from the cache is faithful: bars of the series within the dates, in order, each once, and every upstream bar it lacks is bridged |
| `MarketLaws.LocalAnswerFaithful` | internal/service/market_data.go:384-392 | so is an answer from the store |
| `MarketLaws.GapAnswerFaithful` | internal/service/market_data.go:394-415 | so is an answer after a gap fill |
| `MarketLaws.FullAnswerFaithful` | internal/service/market_data.go:424-447 | a full fetch answers with exactly the requested range among the newest 66317 bars |
| `MarketLaws.SharedLoadIsOwn` | internal/service/market_data.go:424 | requests for whole ranges with one cache key are served the same bars, whichever of them runs the shared load |
| `MarketLaws.EveryAnswerIsFaithful` | internal/service/market_data.go:362-448 | after any run of requests, with any failures, expiries and other series, every successful answer to a whole date range is faithful, and the store holds only bars of the series |
| `MarketLaws.RefreshIsExact` | internal/service/market_data.go:373-381 | a forced refresh leaves nothing of the range out |
| `MarketLaws.BridgedIsOutside` | internal/service/market_data.go:597-630 | bars that are bridged lie in no gap of the bars at hand |
| `MarketLaws.GapFillSettles` | internal/service/market_data.go:403-415 | after a gap fill the store holds of the range exactly what was answered |
| `MarketLaws.FullFetchSettles` | internal/service/market_data.go:420-447 | after a full fetch the store holds what was answered, and nothing else of the range exactly if it held no bars of it from beyond the walk's reach |
| `MarketLaws.FullFetchOnlyOnEmpty` | internal/service/market_data.go:381-420 | a request that is not forced gets to a successful full fetch only if the store has no bar up to its end date |
| `MarketLaws.SettledAnswers` | internal/service/market_data.go:381-418 | from such a store every successful answer is the one it holds, and the store keeps holding it |
| `MarketLaws.AskingAgain` | internal/service/market_data.go:362-448 | once a request for a whole range was answered from the store or the upstream, the store holds of the range exactly that answer, and every later successful answer to it is the same and leaves the store so; an answer from the cache is the same too, unless an entry already found expired counted as fresh again |
| `MarketAnswers.LocalAnswerByIndex` | internal/service/market_data.go:383-392 | an answer from the store is, item by item, the page of the stored bars within the dates that start and count ask for |
| `MarketAnswers.CacheAnswerByIndex` | internal/service/market_data.go:373-379 | an answer from the cache is that page of the cached list |
| `MarketAnswers.GapAnswerByIndex` | internal/service/market_data.go:403-415 | an answer after a gap fill is that page of the answer to the request without paging |
| `MarketAnswers.GapAnswerIsWhatIsStored` | internal/service/market_data.go:403-415 | without paging it is what the store then has for the dates; where store and upstream differ, the upstream wins in both |
| `MarketAnswers.FullAnswerByIndex` | internal/service/market_data.go:424-447 | an answer of a full fetch with dates skips start twice, and without a start is the page asked for |
| `MarketAnswers.AnswerIsNoLonger` | internal/service/market_data.go:771-789 | whatever path answers, a request for count bars gets no more |
| `MarketAnswers.LocalAnswerIsFull` | internal/service/market_data.go:558-595 | an answer that did not ask the upstream has exactly count bars, and is drawn from bars that begin on the start day or before |
| `MarketAnswers.NoUpstreamNeeded` | internal/service/market_data.go:381-392 | when the store has enough bars, beginning early enough and without gaps, an unforced query is answered whatever becomes of the upstream |
| `MarketAnswers.CachedListServes` | internal/service/market_data.go:373-379 | a cached list is used by an unforced query exactly if it has not expired, has enough bars, begins early enough and has no gaps |
| `MarketAnswers.ExpiredListIsIgnored` | internal/service/market_data.go:373-379 | a cached list that has expired, and any for a forced query, is as good as none |
| `MarketAnswers.NextIsServedFromCache` | internal/service/market_data.go:373-379 | nor is the upstream needed for a query already answered, if the answer covers it and has not expired |
| `MarketAnswers.LeftInCache` | internal/service/market_data.go:386-447 | what a successful query leaves in the cache: the answer, unless after a gap fill it does not cover the request, or what the provider returned |
| `MarketAnswers.RunningLoadIsShared` | internal/service/market_data.go:424 | a load that is running for the same series, paging and days is shared |
| `MarketAnswers.UnadjustedIsPlain` | internal/service/market_data.go:369-371 | a query without an adjustment is one for the plain series |
| `MarketAnswers.TaskExactlyWhen` | internal/service/market_data.go:396-435 | a backfill task is asked for exactly when the upstream fails or has nothing, and a query that fails changes neither store nor cache |
| `MarketAnswers.GapTask` | internal/service/market_data.go:396-402 | the task of a failed gap fill: from the first gap to the last one, for the series, at priority 90 |
| `MarketAnswers.GapTaskCovers` | internal/service/market_data.go:396-402 | it covers every gap, and a queue accepts it |
| `MarketAnswers.FullTask` | internal/service/market_data.go:425-434 | the task of a failed full fetch: for the days asked for, or today |
| `MarketAnswers.MarkExactlyWhen` | internal/service/market_data.go:436-443 | a coverage row is written exactly if a full fetch is stored: covered, as of now, with the number of bars fetched, for the first day asked for or fetched |
| `MarketRaces.AloneIsQuery` | internal/service/market_data.go:362-448 | a query whose accesses to cache, store and upstream meet nobody else's is the query of MarketData |
| `MarketRaces.StepKeepsInv` | internal/service/market_data.go:373-447 | every single access of every query keeps store, cache and what the queries hold on to sound, and takes no bar out of the store |
| `MarketRaces.RacingAnswersAreFaithful` | internal/service/market_data.go:362-448 | in any interleaving of queries that share loads, fail and lose cached answers: successful answers to whole ranges are faithful, and bars answered from the store or the upstream stay in the store |
| `StampLaws.FillLacksLateStamps` | internal/service/market_data.go:394-403 | for bars stamped at any time of day: of the gap days, the answer lacks exactly the upstream bars stamped after midnight on the last day of a gap that are not in the store |
| `StampLaws.FillIsCompleteExactlyWhen` | internal/service/market_data.go:394-403 | so a gap fill is complete on its days exactly if no such bar is missing from the store |
| `StampLaws.NoonBarIsLost` | internal/service/market_data.go:611-628 | an input whose answer misses a noon-stamped bar without bridging it, and leaves the store as it was |
| `BackfillQueue.BestIsAhead` | internal/history/memory_store.go:324-335 | the scan takes the eligible task ahead of all others: higher priority, then created earlier, then queued earlier |
| `BackfillQueue.DrainIsSortedAndComplete` | internal/history/memory_store.go:317-344 | repeated Next hands out eligible tasks only, each at most once, in that order, and all of them by the time it comes back empty |
| `BackfillQueue.EnqueueTouches` | internal/history/memory_store.go:278-315 | new work is queued last, as a task that keeps the priority, retries, error, status, creation time and id given, or gets the default; known work changes nothing |
| `BackfillQueue.RefusedExactlyWhen` | internal/history/memory_store.go:282-288 | a task is refused exactly if its symbol, dataset or dates are missing or its dates the wrong way round |
| `BackfillQueue.NextTouches` | internal/history/memory_store.go:337-344 | a task handed out is running as of now, and nothing else changes |
| `BackfillQueue.UpdateTouches` | internal/history/memory_store.go:346-363 | an accepted update replaces the task of that id by the one given; an empty or unknown id is an error |
| `BackfillQueue.PriorityDecides` | internal/history/memory_store.go:278-344 | of two new pending tasks the one with the higher given priority is handed out first, then the one created earlier, then the one enqueued earlier, whatever else is queued |
| `BackfillQueue.RunKeepsValid` | internal/history/memory_store.go:278-363 | in any run every known work has one task and one place in the order, and ids lead to their tasks |
| `BackfillQueue.HandedOutOnce` | internal/history/memory_store.go:317-363 | the task kept under some work and handed out twice was put back to pending or retrying by an Update in between |
| `BackfillQueue.LabelsKeptExactlyWhen` | internal/history/memory_store.go:346-363 | a call leaves every task kept under the work it names, exactly if it is not an accepted Update naming other work |
| `BackfillQueue.GivenTwiceWhy` | internal/history/memory_store.go:317-363 | tasks about the same work given out twice were put back in between, or some call before relabelled a task to that work |
| `BackfillQueue.GivenOnce` | internal/history/memory_store.go:317-363 | so without such Updates, workers given tasks about the same work twice got it put back in between |
| `BackfillQueue.RelabelledIsGivenTwiceWhen` | internal/history/memory_store.go:346-363 | after one, the calls of Next up to an empty-handed one give out tasks about its work twice, exactly if its task and the one kept under that work are eligible |
| `BackfillQueue.OneTaskPerWork` | internal/history/memory_store.go:296-302 | queueing known work again, after any run of calls, reports its task and changes nothing; unless a call relabelled it, the task is about that work |
| `BackfillQueue.IdInUseShadows` | internal/history/memory_store.go:304-312 | a new task leaves all tasks updatable exactly when its id is not in use |
| `BackfillQueue.UpdatableKept` | internal/history/memory_store.go:346-363 | no other call takes a task out of reach |
| `Securities.FetchSecurityRange` | internal/provider/gotdx/provider.go:952-976 | pages of 800 up to a short one are the requested window of the table |
| `Securities.FetchSecurities` | internal/provider/gotdx/provider.go:931-950 | without a count the open-ended loop ends with the whole table |
| `Securities.ProviderGetSecurityInfo` | internal/provider/gotdx/provider.go:900-929 | start and count are passed on for every market: the pages, or without a count the whole tables, of the markets in order, the three defaults if none is given; or an error for an unknown market |
| `Securities.RowsOfIsPage` | internal/provider/gotdx/provider.go:931-950 | with a count, a market yields the page of its table that start and count ask for, and else the whole |
| `Securities.TaggedByIndex` | internal/provider/gotdx/provider.go:921-923 | each row keeps its code and data and gets its market, in table order |
| `Securities.CutIsPage` | internal/service/market_data.go:868-879 | the local paging skips start rows and has at most count |
| `Securities.SecurityFetchQuery` | internal/service/market_data.go:817-834 | the markets asked for, or else those of the symbols, each once in order of appearance |
| `Securities.FilterSecurityInfo` | internal/service/market_data.go:836-880 | an invalid symbol is an error; otherwise filter, stable sort, page |
| `Securities.SecurityService.GetSecurityInfo` | internal/service/market_data.go:281-307 | answer and cache of the query in place |
| `SecurityLaws.SortMeaning` | internal/service/market_data.go:862-867 | the sort orders by market and code and keeps the rows of each symbol as they were |
| `SecurityLaws.FetchMeaning` | internal/service/market_data.go:817-834 | the markets fetched are those asked for, or else those of the symbols, each once, in the order in which they turn up |
| `SecurityLaws.BeforeMeaning` | internal/service/market_data.go:862-867 | markets and codes are compared character by character |
| `SecurityLaws.RewriteExactWhen` | internal/service/market_data.go:281-307 | fetching whole markets and filtering locally equals filtering the upstream tables, exactly when no market with a kept row is asked for twice |
| `SecurityLaws.DistinctMarketsAreExact` | internal/service/market_data.go:281-307 | so for distinct markets the answer is the page of the filtered and sorted upstream tables |
| `SecurityLaws.AnswerInPlain` | internal/service/market_data.go:281-307 | that is: a page of a list, by market and code, with every row of the upstream tables of the listed markets and the symbols asked for, as often as its table has it, and no other |
| `SecurityLaws.RefusedExactlyWhen` | internal/service/market_data.go:836-846 | without a cache, a query is refused exactly if a market is unknown or a symbol incomplete |
| `SecurityLaws.OrderOfMarkets` | internal/service/market_data.go:803-815 | lists of the same markets in any order give the same answer, so one cache entry may serve them |
| `SecurityLaws.CacheIsTransparent` | internal/service/market_data.go:284-290 | with a cache filled from the same upstream the answer is the one without, except exactly when the cache does not serve the query and the upstream cannot be reached, which is an error |
| `SecurityLaws.CacheStaysGood` | internal/service/market_data.go:301-305 | every query leaves the cache so filled |
| `SecurityLaws.NextQueryIsServed` | internal/service/market_data.go:284-290 | after an answered query, the next one with the same markets needs no upstream |
| `Coverage.AssignColumns` | internal/storage/sql_store.go:697-709 | MySQL's column-by-column assignment gives the same row as the simultaneous form of the other dialects |
| `Coverage.CoverageTable.PutCoverage` | internal/storage/sql_store.go:171-189 | defaults, and then the same table in every dialect |
| `Coverage.KeyMeaning` | internal/storage/sql_store.go:178 | a row is for a whole day |
| `Coverage.WrittenMeaning` | internal/storage/sql_store.go:179-185 | a missing status is covered, a covered write without a fetch time was fetched now, and the rest is as given |
| `Coverage.WriteTouches` | internal/storage/sql_store.go:171-189 | a write with an incomplete symbol is refused; any other changes the row of its key alone, which a first write sets as written |
| `Coverage.FoldMeaning` | internal/storage/sql_store.go:676-695 | over any writes to a key: covered if any was, the largest row count, the latest fetch time |
| `Coverage.FoldTexts` | internal/storage/sql_store.go:682-694 | the last non-empty checksum that counts, the last non-empty source, the error of the last write |
| `Coverage.OrderDoesNotMatter` | internal/storage/sql_store.go:668-738 | those three do not depend on the order or repetition of the writes |
| `Coverage.RepeatedWrite` | internal/storage/sql_store.go:171-189 | repeating the last write changes only the update time, except exactly when a covered first write carried an error text, or a covered write without a fetch time comes after the one stored |
| `Coverage.ReplayedWrite` | internal/storage/sql_store.go:171-189 | repeating any write of a run keeps the row count, and changes only the update time exactly if it leaves the texts and does not move the fetch time |
| `Coverage.RunIsFoldPerKey` | internal/storage/sql_store.go:668-738 | keys do not interfere: each row is made by the writes to its own key |
| `Coverage.CoverageSticks` | internal/storage/sql_store.go:677-693 | in any run coverage, row count and fetch time of a covered key are never taken back |
| `SingleFlight.Group.Join` | internal/cache/group.go:40-52 | finds the current call for the key or starts one |
| `SingleFlight.Group.Write` | internal/cache/group.go:54 | the leader's result goes to its own call |
| `SingleFlight.Group.Done` | internal/cache/group.go:55 | the wait group of that call is released |
| `SingleFlight.Group.Forget` | internal/cache/group.go:57-59 | the entry of the key is deleted, and no other |
| `SingleFlight.StepKeepsInv` | internal/cache/group.go:24-61 | every step of every caller keeps the machine's invariant |
| `SingleFlight.OneLoadPerKey` | internal/cache/group.go:44-54 | at most one load per key runs at a time |
| `SingleFlight.FollowersJoinRunningCalls` | internal/cache/group.go:44-47 | a caller that joins a call joins one whose leader has not left |
| `SingleFlight.LeadersForgetTheirOwn` | internal/cache/group.go:57-59 | what a leader deletes is its own entry, and nothing else |
| `SingleFlight.SharedResult` | internal/cache/group.go:44-60 | leader and followers of an entry return the value and error of the one load run for it, and exactly the followers are told it was shared |
| `SingleFlight.CameWith` | internal/cache/group.go:27-53 | a caller with a key is in an entry of that key; one without runs alone; one whose context had ended is turned away |
| `SingleFlight.ReturnedAlone` | internal/cache/group.go:27-39 | a caller that returns without an entry returns its context's error, or the result of its own load, and is not told that it was shared |
| `SingleFlight.FollowsItsEntry` | internal/cache/group.go:44-47 | a follower stays with the entry it found until it returns its result |
| `SingleFlight.SomeoneCanMove` | internal/cache/group.go:46-59 | while a caller is inside, some caller can move |
| `SingleFlight.NoCallLeftBehind` | internal/cache/group.go:57-59 | once everybody has returned, the map is empty |
| `ProviderRuntime.Runtime.HandOver` | internal/bootstrap/provider_runtime.go:31-38 | the locked section of finish is the machine's step Finish, and it decides to close exactly if the machine says so |
| `ProviderRuntime.Runtime.CloseDone` | internal/bootstrap/provider_runtime.go:39-41 | closing the done channel is the step Signal |
| `ProviderRuntime.Runtime.GetCurrent` | internal/bootstrap/provider_runtime.go:53-63 | the provider, or nil once closing was requested |
| `ProviderRuntime.Runtime.RequestClose` | internal/bootstrap/provider_runtime.go:81-83 | the first section of Close is the step CloseCalled |
| `ProviderRuntime.Runtime.TakeHook` | internal/bootstrap/provider_runtime.go:94-98 | the first section of closeOnce is the step TakesHook, with the hook it takes out |
| `ProviderRuntime.Runtime.StoreError` | internal/bootstrap/provider_runtime.go:103-105 | the last section of closeOnce is the step StoresError |
| `ProviderRuntime.Runtime.CloseError` | internal/bootstrap/provider_runtime.go:107-109 | what a Close call that was not cut short answers is the answer of the step CloseReturns |
| `ProviderRuntime.StepKeepsInv` | internal/bootstrap/provider_runtime.go:27-110 | every step of one finish and any number of Close calls keeps the invariant |
| `ProviderRuntime.HookRunsAtMostOnce` | internal/bootstrap/provider_runtime.go:93-106 | in any run the hook starts at most once, and only if one was given |
| `ProviderRuntime.CloseWaitsForTheHook` | internal/bootstrap/provider_runtime.go:84-109 | a Close that does not give up on its context returns after the hook has ended, with the one close error |
| `ProviderRuntime.CloseAnswersTheHooksError` | internal/bootstrap/provider_runtime.go:99-109 | a Close that does not give up answers with the error that the hook returned, and with none if there was no hook |
| `ProviderRuntime.EarlyRequestIsServed` | internal/bootstrap/provider_runtime.go:31-50 | if closing was requested before the hand-over, the hook has run by the time finish returns |
| `ProviderRuntime.NothingAfterRequest` | internal/bootstrap/provider_runtime.go:53-63 | after a Close call nobody ever gets the provider |
| `ProviderRuntime.ClosedLetsGo` | internal/bootstrap/provider_runtime.go:94-98 | once the hook is taken, the runtime holds on to neither provider nor hook |
| `ProviderRuntime.CurrentIsHandedOver` | internal/bootstrap/provider_runtime.go:27-63 | until a Close call is made, the provider is the one handed over, and none before; and the hook is the one handed over with it |
| `ProviderRuntime.HookRanExactlyWhen` | internal/bootstrap/provider_runtime.go:27-110 | when all calls have returned, the hook has run exactly if closing was requested before the hand-over or some Close did not give up |
| `ProviderRuntime.HookMayNeverRun` | internal/bootstrap/provider_runtime.go:38-41 | a run in which Close was called and the hook never runs |
| `ProviderRuntime.SomeoneCanMove` | internal/bootstrap/provider_runtime.go:84-109 | once finish has been called nobody waits for ever |
| `TokenBucket.New` | internal/api/http/limiter.go:26-44 | there is a limiter exactly for a positive rate; it starts valid and full, with the burst or else the rate as capacity |
| `TokenBucket.NewRateLimiter` | internal/api/http/limiter.go:26-44 | no limiter for a rate that is not positive; the burst defaults to the rate |
| `TokenBucket.RateLimiter.Allow` | internal/api/http/limiter.go:46-67 | refill by elapsed time, then take a token if there is one |
| `TokenBucket.AllowedExactlyWhen` | internal/api/http/limiter.go:54-66 | a call is let through exactly if the tokens there were and those earned since, in plain numbers, make up one |
| `TokenBucket.TokensLeft` | internal/api/http/limiter.go:54-65 | what is left afterwards, cut off at the burst, less the token taken |
| `TokenBucket.EmptiedBucketWaits` | internal/api/http/limiter.go:54-66 | an emptied bucket lets the next call through exactly once elapsed * rate reaches a thousand million |
| `TokenBucket.NothingArrivesBackwards` | internal/api/http/limiter.go:54-61 | a clock that stepped back refills nothing |
| `TokenBucket.AllowVia` | internal/api/http/limiter.go:47-50 | a missing limiter lets everything through |
| `TokenBucket.AfterKeepsValid` | internal/api/http/limiter.go:54-65 | tokens stay between nothing and the burst over any calls, even with a clock that steps back |
| `TokenBucket.WindowBound` | internal/api/http/limiter.go:54-66 | whatever came before, a stretch of calls admits at most the burst plus the rate a second times its length in nanoseconds, divided by a thousand million |
| `TokenBucket.AnyWindow` | internal/api/http/limiter.go:26-67 | for any window of any run of a new limiter, in whole numbers: (admitted - burst) * 1000000000 <= rate * length |
| `TokenBucket.BurstIsAdmitted` | internal/api/http/limiter.go:62-66 | as many calls as there are tokens are admitted, however fast they come |
| `TokenBucket.SpacedCallsAreAdmitted` | internal/api/http/limiter.go:54-66 | calls spaced by at least a thousand million nanoseconds over the rate are all admitted |
| `TokenBucket.TicksDoNotMatter` | internal/api/http/limiter.go:54-61 | refilling only when asked answers every call as a bucket refilled at any other times as well |

## Left out

- HTTP, gin and gRPC routing, DTO mapping, codecs, logging, metrics and configuration: plumbing.
- Redis, the SQL drivers, scanning, and the SQL backfill queue, whose select-then-update claims no exclusive work; of SQL only the coverage row merge is modelled.
- Network calls, host probing and reconnects of the gotdx client: the upstream is a fixed series or table that serves pages, where a short page means the end of the data.
- Ticks: storing and merging them follows the bars, with time and sequence as key; whether stored ticks equal an upstream day is not promised by the code, as the provider numbers them per page.
- The coverage row that a full fetch writes is in the state, but nothing is claimed about many of them: `MemoryStore` overwrites rows and is not sticky.
- The cache's own expiry, size limit and eviction: a call is told whether a cached answer is still fresh. The cache key's `times` multiplier and the answers for a start offset other than zero, which provider and service both slice, are not part of the claims about answers.
- The machine of interleaved queries, `MarketRaces`, leaves the backlog and the coverage rows out. That a running load is found, and its result shared, is modelled in `SingleFlight`; a query is told the request of the caller whose load it finds.
- Error texts of upstream failures and of invalid leases: an upstream failure is one error value with one text.
- Normalisation of market names, symbols and periods, trading days, finance data and quotes.
- Sleeping in `waitLocked`: a waiting caller is one that takes another turn later; timers and broadcasts are not modelled, only that nothing could have been granted before the wake-up.
- Floating point: the token bucket counts in real numbers.
- Times are integers of one time zone without daylight saving; daily bars are stamped with their day where claims about answers are made, except in `StampLaws`.
- Panics in loaders and hooks, and 64-bit overflow of lease generations.
- Collisions of hashed task ids: the id function is arbitrary, and what an id in use leads to is stated.
