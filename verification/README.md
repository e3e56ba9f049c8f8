# Shared-memory metrics engine: model and proofs

Several nginx workers count requests in one shared zone without a common lock,
one elected worker takes a history sample at a time, and the API writes the
counters out as JSON while they change. This project models that engine and
proves what its counters, tables, ring, limiter, event streams and output mean.

`dafny verify dfyconfig.toml` checks everything.

## How the model is laid out

| file | models |
|---|---|
| `HistoryRing.dfy`, `Sampling.dfy` | the history ring under appends and configuration reloads; the shared history object with the sample arithmetic |
| `HistoryRace.dfy` | the ring counters when collector, reloads and readers take one load or store at a time |
| `Collector.dfy` | election of the collector by compare-and-set |
| `Ewma.dfy` | the integer moving average of the request rates |
| `LatencyHistogram.dfy` | bucket search, histogram and percentile |
| `TopTable.dfy`, `TopTableRuns.dfy` | the bounded tables in place, and their meaning over whole runs |
| `TopTableRace.dfy`, `TopTableSolo.dfy`, `TopTableUnique.dfy`, `TopTableErrors.dfy` | the same tables with lock-free scans and locked insertion, their agreement with the sequential ones, and when identities stay unique and errors stay within hits |
| `Accounting.dfy`, `RequestCounters.dfy`, `RequestTables.dfy`, `RequestRuns.dfy`, `RequestEntries.dfy` | request accounting as interleaved stages, as one call on the counters and the three tables, and what counters and tables show over any sequence of calls |
| `RateLimiter.dfy` | the double-checked window reset with fetch-and-add, whole calls and interleaved |
| `SseClients.dfy`, `SseTimers.dfy`, `SseHandlers.dfy` | the life cycle of event-stream clients as interleaved steps, which of them go on writing, and the handlers |
| `JsonText.dfy` | JSON text, and a reader by sections 2 to 7 of RFC 8259 |
| `Utf8Text.dfy`, `Utf8Scalars.dfy` | when written text is well-formed UTF-8, by section 4 of RFC 3629, and that this means encoded scalar values |
| `JsonWriter.dfy` | the bounded writer and the string escaper |
| `TopList.dfy`, `ListText.dfy`, `ListFields.dfy`, `ListUtf8.dfy` | the sorted view of a table, the arrays written for the top tables and the upstreams, what a reader finds in them, and when they are well-formed UTF-8 |
| `MountFields.dfy`, `Bytes.dfy` | the `/proc/mounts` tokenizer and octal decoder; C strings |
| `Tally.dfy`, `Folds.dfy`, `Common.dfy` | sums over processes, slots or calls; steps run over lists; an option type, a mutex and the minimum |

Sequential code is a class or a method over arrays, proved against a function of
its old state. A protocol is a state with a total `Next`: an action that is not
enabled changes nothing, so "for every sequence of actions" means "in every
interleaving". Each such state machine is tied to the sequential code: an
operation whose steps nobody interrupts has the effect of the whole operation.

- `HistoryRace` by `PassIsAppend`, `StepsAreReload`, `StepsAreRead` and `RunIsRing`;
- `Collector` by `PassAlone`;
- `TopTableRace` by `TopTableSolo.SoloCallIsApply` and `TopTableUnique.SerialRunIsSequential`;
- `Accounting` by `RequestCounters.StagesMakeCall`;
- `RateLimiter` by `SoloCallIsCheck`;
- `SseClients` by the methods of `SseHandlers.Handler`.

## What does not always hold, and exactly when it does

- **Sample order across a reload.** What is read stays in order, whatever the
  slots hold, if and only if the kept window has the same layout under both
  capacities, which the write position, the count and the two capacities decide
  (`HistoryRing.ReloadKeepsOrderIff`). The same condition is exact on runs: after
  any number of different samples in a fresh zone (`HistoryRing.RunKeepsOrderIff`).
  `HistoryRing.ReloadCanLoseOrder` is a run in which the reader visits a slot that
  was never written. What survives every reload is `HistoryRing.SelfStabilising`.
- **A count within the capacity.** One pass and one reload from a quiet state
  end within the capacity in every interleaving if and only if the reload leaves
  room above the count, or changes nothing on a full ring
  (`HistoryRace.CountStaysWithinIff`). With one reload and any number of passes,
  every quiet state is within it if and only if the reload does not shrink the
  ring (`HistoryRace.OneReloadStaysWithinIff`), and any number of passes and
  reloads stay within it while no reload shrinks the ring
  (`HistoryRace.GrowingStaysWithin`). Above it, the reader laps the ring and emits
  slots twice (`HistoryRing.OverfullReadsRepeat`); whole passes do not heal that,
  and a run of whole operations ends within the capacity if and only if it
  started there or contains a reload (`HistoryRing.OverfullEndsIff`). All accesses
  stay inside the array (`HistoryRace.AccessesInBounds`), and the newest samples
  are still read in order: `HistoryRing.SelfStabilising` starts from any such ring.
- **One slot for each key of a top table.** Slots hold distinct identities in
  every interleaving if and only if the table has at most one slot or there is
  at most one worker (`TopTableUnique.UniqueIff`), because the scan is not
  repeated under the mutex (`TopTableUnique.IdentityCanBeDuplicated`, with every
  comparison truthful). With more, they do in every run in which no two calls in
  flight carry the same identity (`TopTableUnique.UniqueWhileApart`).
- **Errors within hits in a top table.** Whole calls in turn keep them so
  (`TopTableRuns.CountsOrdered`). Interleaved, they are at rest if and only if
  there is no slot or at most one worker (`TopTableErrors.OrderedIff`): a call
  that has counted its hit can find its slot rewritten when it adds its error,
  which then counts for another key (`TopTableErrors.GainCanBeMisled`, for every
  table, two keys and two workers: two errors beside one hit). With more, they are
  in every run in which no slot is zeroed while a failed call stands between its
  hit and its error on it (`TopTableErrors.OrderedWhileUndisturbed`).
- **The limit of one second.** Calls of one second stay within their limit in
  every interleaving if and only if the window already shows the second, or
  there is one worker, or the old count has reached the limit
  (`RateLimiter.LimitHoldsIff`). The exact worst case is
  `RateLimiter.MostAdmitted`: twice the limit, less what the old count takes.
- **A moving average that reaches a constant rate.** It does if and only if it
  started at zero or at or above the rate; from below it stops where the dead
  band of 3 holds it (`Ewma.RequestAverageSettles`, `Ewma.SettlesExactly`).
- **Ordered percentiles of one response.** They are in order for one state of
  the counters (`LatencyHistogram.ReportedPercentilesOrdered`). The API makes two
  passes over the live counters for each, and the four calls are arguments of one
  formatted write, whose order of evaluation C leaves open. If the lower
  percentile is read first, the order is sure, however the requests are spread,
  if and only if its first pass found nothing or the higher rank leads by all
  requests accounted since the lower one's second pass
  (`LatencyHistogram.RisesSurelyIff`); for p90 and p95 of 100 requests six between
  the two passes of p95 are too many (`LatencyHistogram.SixRequestsSuffice`). If
  the higher is read first, it is sure if and only if both first passes found
  nothing, or the earlier one found something and the lower rank, of the later
  total, is at most the higher rank, of the earlier total
  (`LatencyHistogram.FallsSurelyIff`).
- **UTF-8 output.** A list is well-formed UTF-8 if and only if every key shown is
  (`ListUtf8.TopTextWellFormedIff`, `ListUtf8.PeerTextWellFormedIff`). A well-formed
  key stays well-formed through the cut to 127 bytes if and only if it is shorter
  than 128 bytes or the first byte cut off does not continue a character
  (`ListUtf8.CutKeepsIff`; `ListUtf8.CutCanSplit` is one that does not). So after
  any run of updates with well-formed keys, a list is well-formed if and only if
  this holds of the key that each entry was inserted with
  (`ListUtf8.TopRunWellFormedIff`, `ListUtf8.PeerRunWellFormedIff`).

## Assumptions

- Counters are naturals; wrap-around at 2^64 is modelled only in the age test of
  a sample, where the code subtracts clock readings.
- Keys and mount fields contain no NUL byte. The hash of a key is whatever the
  hash function gives; nothing is assumed about it.
- The rank of a percentile is the exact integer part of `total * p / 100`.
  Averages that are only displayed are fixed-point with three decimals, rounded
  to nearest, as exact arithmetic.
- `ngx_vslprintf` is not part of this model: a formatted write is given what its
  format expands to. The format `\u%04x` is taken by its intent, an escape of
  four hexadecimal digits; nginx's own conversions differ from those of C.
- The clock used by a sample is positive. The initial minimum of a table scan,
  the largest unsigned value, is "none yet".
- In the interleaved table, copying a key, zeroing a slot, and adding bytes,
  latency and errors after a hit are one step each. A comparison is one step too,
  and conservation, key/hash consistency and the order of errors and hits let it
  come out either way. Uniqueness asks only that it finds the identity it looks
  for in a slot nobody is rewriting; the runs that break uniqueness or that order
  use comparisons that are exact on every such slot.
- In the order theorems of the ring a collector's append is atomic with respect
  to a capacity change; in the bounds and count theorems it is not.
- The reader of JSON text takes bytes from 0x80 up as characters of a string one
  by one; whether they make up UTF-8 is the subject of `Utf8Text`.
- Each pass of a percentile over the live counters loads every counter once.
- An output filter call of an event stream ends as its environment decides, and
  the data may stay buffered until a drain that can come at any time.

## Model

| member | source | states |
|---|---|---|
| `HistoryRing.SelfStabilising` | src/ngx_http_monitoring_json.c:778-794 | after any run of appends and capacity-changing reloads, from any valid ring, the newest min(k, capacity) samples read are the newest of the k appended since the last reload, oldest first |
| `HistoryRing.FreshZoneReadsLast` | src/ngx_http_monitoring_json.c:778-794 | without a reload a fresh zone reads back exactly the last min(n, capacity) of all n samples |
| `HistoryRing.AppendHolds` | src/ngx_http_monitoring_collectors.c:748-791 | an append overwrites none of the newest samples the ring must still show |
| `HistoryRing.SlotIsRemainder` | src/ngx_http_monitoring_collectors.c:753-753 | the lap-by-lap slot of a position is the remainder the code computes |
| `HistoryRing.ReadAt` | src/ngx_http_monitoring_json.c:791-794 | the reader's index arithmetic visits exactly the slot that each position of its window was written to |
| `HistoryRing.ReloadKeepsOrderIff` | src/ngx_http_monitoring_shm.c:61-73 | a reload keeps what is read, whatever the slots hold, if and only if the kept window has one layout under both capacities |
| `HistoryRing.RunKeepsOrderIff` | src/ngx_http_monitoring_shm.c:61-73 | after any number of different samples in a fresh zone a reload keeps what is read if and only if the kept window has one layout |
| `HistoryRing.SameLayoutMeansSameSlots` | src/ngx_http_monitoring_shm.c:61-73 | the layout test a caller can compute holds exactly when every kept position has one slot under both capacities |
| `HistoryRing.ReloadCanLoseOrder` | src/ngx_http_monitoring_shm.c:61-73 | 25 samples in a ring of 10 and a reload to 20: the reader visits a slot never written |
| `HistoryRing.OverfullReadsRepeat` | src/ngx_http_monitoring_json.c:778-794 | with a count above the capacity everything the reader emits before its last lap repeats a sample one capacity later |
| `HistoryRing.AppendsKeepOverfull` | src/ngx_http_monitoring_collectors.c:748-791 | no number of appends lowers a count at or above the capacity |
| `HistoryRing.OverfullEndsIff` | src/ngx_http_monitoring_shm.c:61-73 | a run of appends and reloads ends with the count within the capacity if and only if it started so or contains a reload |
| `HistoryRing.CapacityFor` | src/ngx_http_monitoring_shm.c:61-67 | the ring length lies within 1 and 3600 for every configuration |
| `HistoryRing.CapacityCovers` | src/ngx_http_monitoring_shm.c:61-67 | the ring length is the only one in range that covers the retention: with more than one slot that many resolutions fit into it, and below 3600 one slot more would not |
| `HistoryRace.AccessesInBounds` | src/ngx_http_monitoring_json.c:778-794 | in every interleaving of a collector, reloads and readers the count never passes the write count, the reader's subtraction never goes below zero and every slot touched is in the array |
| `HistoryRace.RunKeepsInv` | src/ngx_http_monitoring_collectors.c:748-791 | the inductive invariant behind the bounds, with a claimed position counted as pending |
| `HistoryRace.CountCanPassCapacity` | src/ngx_http_monitoring_shm.c:69-72 | a run after which the count exceeds the capacity with nobody in mid-operation, and a reader emits slot 0 twice |
| `HistoryRace.CountStaysWithinIff` | src/ngx_http_monitoring_shm.c:61-72 | one pass and one reload in every interleaving end with the count within the capacity, if and only if the reload leaves room above the count or changes nothing on a full ring |
| `HistoryRace.OneReloadStaysWithinIff` | src/ngx_http_monitoring_shm.c:61-72 | with one reload and any number of passes, every quiet state of every interleaving is within the capacity if and only if the reload does not shrink the ring |
| `HistoryRace.GrowingStaysWithin` | src/ngx_http_monitoring_shm.c:61-72 | while no reload stores less than is stored, any number of passes, reloads and readers keep the count within the capacity |
| `HistoryRace.RunIsRing` | src/ngx_http_monitoring_collectors.c:748-791 | in every interleaving the counters make a ring that the order theorems speak about |
| `HistoryRace.PassIsAppend` | src/ngx_http_monitoring_collectors.c:748-791 | an uninterrupted pass claims the slot the append fills and leaves the append's counters |
| `HistoryRace.StepsAreReload` | src/ngx_http_monitoring_shm.c:61-73 | an uninterrupted reload is the ring's reload |
| `HistoryRace.ReadersKeepLoads` | src/ngx_http_monitoring_json.c:778-794 | whatever else happens, a reader keeps its loads of count and capacity until it leaves, and visits one place after the other |
| `HistoryRace.StepsAreRead` | src/ngx_http_monitoring_json.c:778-794 | an uninterrupted reader visits the slots of the ring's read in order and leaves |
| `Collector.OneCollector` | src/ngx_http_monitoring_collectors.c:116-142 | in every run of any workers at most one is in a pass, the lock holds its pid, and the generation is 1 plus the completed bumps, none lost |
| `Collector.StepKeepsInv` | src/ngx_http_monitoring_collectors.c:116-142 | every load, store and compare-and-set keeps the exclusion and the freshness of a loaded generation |
| `Collector.PassAlone` | src/ngx_http_monitoring_collectors.c:116-142 | an uninterrupted pass raises the generation by one and leaves everything else as it was |
| `Collector.Zone.Collect` | src/ngx_http_monitoring_collectors.c:116-142 | the compare-and-set, the history pass, the bump and the release in place: won exactly when the lock was free, one generation and the pass's sample if so, nothing otherwise, and the lock as before |
| `Sampling.History.constructor` | src/ngx_http_monitoring_shm.c:76-93 | a fresh zone is an empty ring that covers the retention, with all previous values zero |
| `Sampling.History.Reconfigure` | src/ngx_http_monitoring_shm.c:61-73 | a reload sets the capacity that covers the retention, clamps the count, and moves no sample |
| `Sampling.History.Push` | src/ngx_http_monitoring_collectors.c:748-791 | claiming, filling and counting a slot in place is the ring's append |
| `Sampling.History.CollectHistory` | src/ngx_http_monitoring_collectors.c:702-800 | the in-place pass leaves exactly the state the pure pass gives, gauges included, or the old state if no sample is due |
| `Sampling.History.ReadGauges` | src/ngx_http_monitoring_collectors.c:757-777 | the gauges of a sample from the last system readings |
| `Sampling.UsedPercentIsShare` | src/ngx_http_monitoring_collectors.c:757-768 | with consistent readings memory and swap use are exact shares between 0 and 100 percent |
| `Sampling.History.UpdateAverages` | src/ngx_http_monitoring_collectors.c:739-746 | both averages restart from their rates while the request average is zero, and otherwise become seven parts of themselves and three of the rate, rounded down |
| `Sampling.History.NewSample` | src/ngx_http_monitoring_collectors.c:702-777 | averages, rates and gauges computed in place are those of the pure sample |
| `Sampling.History.ReadHistory` | src/ngx_http_monitoring_json.c:778-815 | the reader's loop emits exactly the ring's window in order |
| `Sampling.RateIsFloor` | src/ngx_http_monitoring_collectors.c:718-737 | every integer rate is the scaled quotient rounded down, and the divisor is positive |
| `Sampling.EveryRateIsFloor` | src/ngx_http_monitoring_collectors.c:718-737 | all six rates of every sample of any run are exact quotients rounded down, against the recorded differences and interval |
| `Sampling.EverySampleIsExplained` | src/ngx_http_monitoring_collectors.c:702-800 | every field of every sample of any run: the reading or rate of its own name, differences to the counters of the sample before, the interval since it, and averages made from its averages |
| `Sampling.PercentShares` | src/ngx_http_monitoring_collectors.c:757-768 | memory and swap use are exact shares of the unsigned difference, also where it wraps, and 0 without a total |
| `Sampling.TakenExactlyWhenDue` | src/ngx_http_monitoring_collectors.c:705-709 | with a steady clock a pass takes a sample exactly if it is the first or a resolution after the last one |
| `Sampling.FullRingReachesBack` | src/ngx_http_monitoring_json.c:778-815 | a ring filled since the last reload shows samples a resolution apart that reach back over the retention it was sized for, up to two resolutions |
| `Sampling.SamplesSpacedAndTelescoping` | src/ngx_http_monitoring_collectors.c:702-800 | with a steady clock and counters: samples at least a resolution apart, both stored times equal, request deltas summing to the total at the last sample |
| `Sampling.DueMeansApart` | src/ngx_http_monitoring_collectors.c:705-709 | the wrapping age test is the distance to the last sample if the clock did not go back, and 2^64 less that if it did |
| `Sampling.RingFollowsEvents` | src/ngx_http_monitoring_collectors.c:748-791 | over any run of passes and reloads the ring is that of one append for each sample taken and one reload for each reconfiguration |
| `Sampling.ReaderShowsSamplesTaken` | src/ngx_http_monitoring_json.c:778-815 | what an API request reads after any run ends with the samples taken since the last reload |
| `Ewma.StepStaysBetween` | src/ngx_http_monitoring_collectors.c:743-745 | a step stays between old average and new rate, and stands still exactly in the band from the rate down to 3 below it |
| `Ewma.StepContracts` | src/ngx_http_monitoring_collectors.c:743-745 | ten times the new signed distance is seven times the old one, at most 9 more; so it shrinks to 7/10 from above, and beyond a dead band of 3 from below |
| `Ewma.DistanceAtMost` | src/ngx_http_monitoring_collectors.c:743-745 | over k samples at a constant rate the signed distance is at most (7/10)^k of the first: from below no run is faster, from above none is slower |
| `Ewma.DistanceAtLeast` | src/ngx_http_monitoring_collectors.c:743-745 | and at least that of a start 3 higher, less 3: from above no run is faster |
| `Ewma.ConvergesFromBelow` | src/ngx_http_monitoring_collectors.c:739-746 | under a constant rate the average rises, with a geometric bound on its distance |
| `Ewma.ConvergesFromAbove` | src/ngx_http_monitoring_collectors.c:739-746 | under a constant rate the average falls, with a geometric bound, and reaches exactly the rate |
| `Ewma.SettlesExactly` | src/ngx_http_monitoring_collectors.c:743-745 | after as many samples as the distance the average is exactly the rate from above, and exactly max(start, rate - 3) from below |
| `Ewma.RequestAverageSettles` | src/ngx_http_monitoring_collectors.c:739-746 | the exact final request average under any constant rate, and: it is the rate if and only if it started at zero or at or above the rate |
| `Ewma.ResponseAverageSettles` | src/ngx_http_monitoring_collectors.c:739-746 | the exact final response average, which is restarted with the request average |
| `Ewma.RestartIsExact` | src/ngx_http_monitoring_collectors.c:739-742 | from a zero request average both averages equal constant rates from the first sample on |
| `LatencyHistogram.LatencyBucket` | src/ngx_http_monitoring_shm.c:480-492 | the loop finds the only bucket whose range holds the latency |
| `LatencyHistogram.SizeBucket` | src/ngx_http_monitoring_shm.c:495-507 | the loop finds the only bucket whose range holds the size |
| `LatencyHistogram.Percentile` | src/ngx_http_monitoring_shm.c:510-540 | both passes over counters that may change between them: the first bucket whose running total in the second pass reaches the rank from the first |
| `LatencyHistogram.LivePercentileAtMost` | src/ngx_http_monitoring_shm.c:510-540 | with requests accounted between the passes the result is at most the percentile of what the first pass saw |
| `LatencyHistogram.RankOf` | src/ngx_http_monitoring_shm.c:526-529 | the rank is the least positive count of which one more exceeds p percent of the total |
| `LatencyHistogram.RankIsLeastEnough` | src/ngx_http_monitoring_shm.c:526-529 | the same of the specified rank, which the theorems on percentiles name |
| `LatencyHistogram.CumulativeCounts` | src/ngx_http_monitoring_shm.c:531-537 | running totals count exactly the values up to each bound |
| `LatencyHistogram.CountPermuted` | src/ngx_http_monitoring_shm.c:510-540 | counts do not depend on the order the requests came in |
| `LatencyHistogram.HistogramPercentile` | src/ngx_http_monitoring_shm.c:510-540 | for all increasing bounds and all data: the bucket percentile is the nearest-rank value of the sorted data rounded up to a bound |
| `LatencyHistogram.PercentileIsNearestRank` | src/ngx_http_monitoring_shm.c:510-540 | the same for the code's latency bounds and its top value of 30000 |
| `LatencyHistogram.SeenIsFirstEnough` | src/ngx_http_monitoring_shm.c:510-540 | over moving counters: the bound of the first bucket whose running total in the second pass is enough of the first pass's total |
| `LatencyHistogram.PercentileIsLeastBound` | src/ngx_http_monitoring_shm.c:510-540 | without ranks, for all bounds and all data: the least bound that enough of the values do not exceed, the top value if no bound has that, 0 without values |
| `LatencyHistogram.RoundUpIsLeastBound` | src/ngx_http_monitoring_shm.c:480-492 | rounding up gives the least bound not below the value, or the top value if there is none |
| `LatencyHistogram.RankBounds` | src/ngx_http_monitoring_shm.c:526-529 | the rank grows with p and stays within the data up to p = 100 |
| `LatencyHistogram.PercentileMonotone` | src/ngx_http_monitoring_shm.c:510-540 | a higher percentile is never smaller, whatever the counters hold |
| `LatencyHistogram.ReportedPercentilesOrdered` | src/ngx_http_monitoring_shm.c:510-540 | p50, p90, p95 and p99 of one state of the counters are in order |
| `LatencyHistogram.RisesSurelyIff` | src/ngx_http_monitoring_json.c:666-669 | with two passes over growing counters for each of two percentiles: the one read second is never below the one read first if and only if nothing was accounted by the first pass, or its rank leads by all requests since the second pass |
| `LatencyHistogram.FallsSurelyIff` | src/ngx_http_monitoring_json.c:666-669 | in the other order of evaluation: the one read second is never above the one read first if and only if both first passes found nothing, or the earlier one found something and the second's rank is at most the first's |
| `LatencyHistogram.SixRequestsSuffice` | src/ngx_http_monitoring_json.c:666-669 | on the code's bounds, six requests between the passes of p95 can put it below a p90 of 100 requests |
| `TopTable.MatchesIsIdentity` | src/ngx_http_monitoring_shm.c:405-408 | hash, bounded comparison and NUL test together decide equality of hash and truncated key |
| `TopTable.SameKey` | src/ngx_http_monitoring_shm.c:405-408 | the comparison as used by the scan |
| `TopTable.Scan` | src/ngx_http_monitoring_shm.c:391-424 | the one-pass loop finds the first slot of the identity, else the first empty slot, else the first slot with the fewest hits |
| `TopTable.Insert` | src/ngx_http_monitoring_shm.c:428-446 | zeroing and refilling leave exactly this update's entry and touch no other slot |
| `TopTable.Bump` | src/ngx_http_monitoring_shm.c:410-417 | a hit adds one update to its slot and touches no other |
| `TopTable.UpdateTop` | src/ngx_http_monitoring_shm.c:378-447 | the whole call applies the update to the first `capacity` slots and leaves the rest of the array alone |
| `TopTable.InsertedIsProper` | src/ngx_http_monitoring_shm.c:432-435 | a refilled slot reads back as the update's own identity, for keys of any length |
| `TopTableRuns.RunKeepsShape` | src/ngx_http_monitoring_shm.c:378-447 | after any run occupied slots form a prefix and no two share an identity |
| `TopTableRuns.EntriesSumSinceInsertion` | src/ngx_http_monitoring_shm.c:378-447 | after any run each entry carries the exact hits, bytes, latency and errors of its identity since its latest insertion |
| `TopTableRuns.CountsOrdered` | src/ngx_http_monitoring_shm.c:378-447 | for the gains the accounting passes in: errors within hits within the true count of the identity |
| `TopTableRuns.UpstreamCountsOrdered` | src/ngx_http_monitoring_shm.c:291-375 | for upstream peers: 5xx within failures, and failures and 4xx together within requests |
| `TopTableRuns.HitsConserved` | src/ngx_http_monitoring_shm.c:399-446 | hits in the table plus hits erased by evictions equal the updates made |
| `TopTableRuns.EvictionIsSmall` | src/ngx_http_monitoring_shm.c:419-431 | the victim is the first slot with the fewest hits, and capacity times the hits erased is at most the number of updates |
| `TopTableRuns.HeavyEntrySurvives` | src/ngx_http_monitoring_shm.c:399-446 | an entry above a 1/capacity share of the updates keeps its slot and its hits through the next update |
| `TopTableRuns.ExactWhileFitting` | src/ngx_http_monitoring_shm.c:399-446 | while at most `capacity` identities have appeared, every one is in the table with its whole history and nothing was evicted |
| `TopTableRace.HitsConserved` | src/ngx_http_monitoring_shm.c:399-446 | in every interleaving hits in the table plus hits erased by zeroing equal the increments executed, and every index is in the table |
| `TopTableRace.RunConsistent` | src/ngx_http_monitoring_shm.c:426-440 | in every interleaving the mutex is exclusive and a slot is torn only while its owner is between two stores |
| `TopTableRace.KeyAndHashTogether` | src/ngx_http_monitoring_shm.c:426-440 | whenever the mutex is free each slot's key and hash are both blank or both from one single call |
| `TopTableSolo.MissRunsAlone` | src/ngx_http_monitoring_shm.c:426-446 | a miss alone on the mutex leaves the entry the sequential insertion leaves, gain included, and erases exactly the old hits |
| `TopTableSolo.ScanOnIsScanned` | src/ngx_http_monitoring_shm.c:399-428 | the running choices of a scan end at the first slot of the identity, else the first empty slot, else the victim |
| `TopTableSolo.SoloCallIsApply` | src/ngx_http_monitoring_shm.c:378-447 | a call that nobody interrupts leaves the slots the sequential update leaves, the mutex free and one more increment |
| `TopTableUnique.UniqueWhileApart` | src/ngx_http_monitoring_shm.c:399-440 | in every interleaving in which no two calls in flight carry the same identity, slots hold distinct identities whenever the mutex is free |
| `TopTableUnique.UniqueIff` | src/ngx_http_monitoring_shm.c:399-440 | with truthful comparisons, slots hold distinct identities in every interleaving if and only if there is at most one slot or one worker |
| `TopTableUnique.IdentityCanBeDuplicated` | src/ngx_http_monitoring_shm.c:399-440 | for any table of two or more slots, two or more workers and two identities: a truthful run with two overlapping calls after which two slots hold one identity |
| `TopTableErrors.OrderedIff` | src/ngx_http_monitoring_shm.c:410-446 | with at most one error a call and truthful comparisons, errors are within hits at rest after every interleaving if and only if there is no slot or at most one worker |
| `TopTableErrors.GainCanBeMisled` | src/ngx_http_monitoring_shm.c:426-446 | for any table, two or more workers and any two calls: a truthful run after which everything the first call had to add counts for the second one's key, beside a single hit |
| `TopTableErrors.OrderedWhileUndisturbed` | src/ngx_http_monitoring_shm.c:410-446 | in every interleaving in which no slot is zeroed while a failed call stands between its hit and its error on it, errors are within hits in every state |
| `TopTableUnique.SerialRunIsSequential` | src/ngx_http_monitoring_shm.c:378-447 | whole calls one after the other, by any workers, leave the slots of the sequential run |
| `Accounting.GapIsInFlight` | src/ngx_http_monitoring_shm.c:156-186 | in every interleaving the gap between the totals of any two stages is the number of workers between them |
| `Accounting.QuietTotalsAgree` | src/ngx_http_monitoring_shm.c:156-186 | with nobody in mid-request all stage totals are equal |
| `Accounting.OneRequestCountsOnce` | src/ngx_http_monitoring_shm.c:156-186 | an uninterrupted request adds one to exactly one counter of every stage |
| `Accounting.LiveHistogram` | src/ngx_http_monitoring_shm.c:164-165 | in every interleaving the live latency counters are the histogram of the latencies accounted so far |
| `Accounting.LatenciesConserved` | src/ngx_http_monitoring_shm.c:156-165 | each latency begun is accounted or held by a worker on its way to the bucket |
| `Accounting.QuietPercentile` | src/ngx_http_monitoring_shm.c:510-540 | with nobody in mid-request the reported percentile is the nearest-rank percentile of all requests ever begun, however they interleaved |
| `Accounting.QuietPercentileIsLeast` | src/ngx_http_monitoring_shm.c:510-540 | the same without ranks: the least bound that enough of all latencies begun do not exceed |
| `RequestCounters.Requests.AccountRequest` | src/ngx_http_monitoring_shm.c:123-204 | the whole call in place is the specified step: every stage's counters once, bytes and time, TLS and keep-alive counters, the worker's slot, and the three tables |
| `RequestCounters.Requests.UpdateStatus` | src/ngx_http_monitoring_shm.c:273-288 | each of the five status counters moves exactly for the codes of its hundred, the last one from 500 up and the first one below 200 |
| `RequestCounters.Requests.UpdateWorker` | src/ngx_http_monitoring_shm.c:248-270 | pid, time, requests, bytes and errors of one worker slot and no other; a request both slow and failed counts as two errors |
| `RequestCounters.Requests.UpdateConnection` | src/ngx_http_monitoring_shm.c:172-183 | every first request of a TLS connection is a handshake, every later request of any connection a reuse |
| `RequestCounters.Requests.CountKeys` | src/ngx_http_monitoring_shm.c:188-203 | the path and the user agent count for their tables, as errors from status 400 and without a status, and every upstream attempt for its peer |
| `RequestTables.AccountUpstream` | src/ngx_http_monitoring_shm.c:207-244 | the loop applies one update for each attempt in order, with the fallback peer and the fallback time |
| `RequestCounters.StagesMakeCall` | src/ngx_http_monitoring_shm.c:156-186 | the seven interleaved stages, run without interruption, are the whole call |
| `RequestRuns.CountersAreCounts` | src/ngx_http_monitoring_shm.c:123-204 | after any sequence of calls on a fresh zone every counter of every stage is the number of calls that belong to it |
| `RequestRuns.StatusesCount` | src/ngx_http_monitoring_shm.c:273-288 | the first k status counters together are the calls answered below 100 (k + 1), a missing status counting as 499 |
| `RequestRuns.LatenciesCount` | src/ngx_http_monitoring_shm.c:164-165 | the first k latency buckets together are the calls that took at most the k-th bound |
| `RequestRuns.SizesCount` | src/ngx_http_monitoring_shm.c:167-168 | the first k size buckets together are the calls that sent at most the k-th bound |
| `RequestRuns.MethodsCount` | src/ngx_http_monitoring_shm.c:161-162 | each method counter is the number of calls with that method |
| `RequestRuns.WorkersCount` | src/ngx_http_monitoring_shm.c:248-270 | each worker slot shows the number, the bytes, the slow and the failed calls of its own processes, and the pid and the time of the last one |
| `RequestRuns.StagesCountCalls` | src/ngx_http_monitoring_shm.c:156-186 | the counters of each stage add up to the calls |
| `RequestRuns.WorkerBytesAddUp` | src/ngx_http_monitoring_shm.c:156-159 | the bytes of all workers are the bytes of the zone and of the calls, and the time of the zone is that of the calls |
| `RequestRuns.WorkerErrorsAddUp` | src/ngx_http_monitoring_shm.c:263-269 | the errors of all workers are the 5xx counter plus the last latency bucket |
| `RequestRuns.ConnectionsCount` | src/ngx_http_monitoring_shm.c:172-183 | the three connection counters are the calls over TLS, the first ones of a TLS connection, and the later ones of any connection |
| `RequestRuns.ConnectionsOrdered` | src/ngx_http_monitoring_shm.c:172-183 | handshakes within TLS requests within calls, every TLS request a handshake or a reuse, and none both |
| `RequestEntries.UrlsAreRun` | src/ngx_http_monitoring_shm.c:188-193 | the configured part of the URL table is that of a run of one update for each call, so the run theorems apply, and the rest stays blank |
| `RequestEntries.UrlHitsConserved` | src/ngx_http_monitoring_shm.c:188-193 | hits in the URL table plus hits evicted from it are the calls with a path |
| `RequestEntries.UrlEntriesShowRequests` | src/ngx_http_monitoring_shm.c:188-193 | after any sequence of calls every URL entry shows, over the calls for its path since its insertion, how many, their bytes, their time, those without a status or with one from 400 up, and the time of the last |
| `RequestEntries.AgentEntriesShowRequests` | src/ngx_http_monitoring_shm.c:195-201 | the same for every user agent, over the calls that named it |
| `RequestEntries.UpstreamsAreRun` | src/ngx_http_monitoring_shm.c:207-244 | the upstream table is that of a run with one effective update for each attempt |
| `RequestEntries.AttemptsConserved` | src/ngx_http_monitoring_shm.c:207-244 | hits in the upstream table plus hits evicted from it are the attempts |
| `RequestEntries.PeerEntriesShowAttempts` | src/ngx_http_monitoring_shm.c:207-244 | every upstream entry shows, over the attempts at its peer since its insertion, how many, their response times or else the requests' own, failures without a status or from 500 up, the 4xx, the 5xx, and the time of the last; attempts without a peer name count for "unknown" |
| `RateLimiter.Limiter.Check` | src/ngx_http_monitoring_module.c:898-934 | verdict and new window of one uninterrupted call |
| `RateLimiter.AdmittedByOrdinal` | src/ngx_http_monitoring_module.c:916-934 | with calls in turn and a clock that does not go back, a call is admitted exactly when its ordinal in its second is within its limit |
| `RateLimiter.AdmittedPerEpoch` | src/ngx_http_monitoring_module.c:918-931 | in every interleaving at most `limit` calls are admitted between two resets of the count |
| `RateLimiter.RefusalsCounted` | src/ngx_http_monitoring_module.c:927-931 | in every interleaving the rejection counter lags the refusals by exactly the workers about to add themselves |
| `RateLimiter.QuietRefusals` | src/ngx_http_monitoring_module.c:927-931 | with nobody in a call, rejections equal the counter |
| `RateLimiter.SameSecondResetsOnce` | src/ngx_http_monitoring_module.c:918-925 | if all calls read one second, the second test under the lock lets at most one of them reset the count |
| `RateLimiter.SameSecondAdmitsTwice` | src/ngx_http_monitoring_module.c:918-931 | if all calls read one second, at most twice the limit is admitted, whatever the window held |
| `RateLimiter.LimitHoldsIff` | src/ngx_http_monitoring_module.c:916-931 | for every window, second, limit and number of workers: calls of one second stay within the limit in every interleaving if and only if the window shows the second, or at most one worker, or the old count has reached the limit |
| `RateLimiter.FullWindowProtects` | src/ngx_http_monitoring_module.c:918-931 | an old count that has reached the limit keeps every interleaving of one second within it |
| `RateLimiter.NeverMore` | src/ngx_http_monitoring_module.c:916-931 | no interleaving of calls of one second admits more than the stated worst case |
| `RateLimiter.MostIsReached` | src/ngx_http_monitoring_module.c:916-931 | for every window, second, limit and number of workers some interleaving admits exactly the worst case |
| `RateLimiter.TwiceIsReached` | src/ngx_http_monitoring_module.c:916-931 | from an old window with nothing counted, two workers suffice for exactly twice any limit |
| `RateLimiter.SoloCallIsCheck` | src/ngx_http_monitoring_module.c:898-934 | the steps of a call without interference have the effect of the whole call |
| `SseClients.CountersExact` | src/ngx_http_monitoring_sse.c:77-187 | in every interleaving `sse_clients` counts the clients registered and not yet uncounted, and `sse_events` the events of all clients up to those between the two updates |
| `SseClients.DecrementNeverUnderflows` | src/ngx_http_monitoring_sse.c:135-138 | a cleanup always finds the count positive |
| `SseClients.ClientsSound` | src/ngx_http_monitoring_sse.c:93-187 | at most one buffer pending, none rewritten while pending, buffers alternate, and event ids are 0, 1, 2, ... without gaps |
| `SseClients.NextTallied` | src/ngx_http_monitoring_sse.c:77-187 | every step of every client keeps both tallies |
| `SseHandlers.Handler.Write` | src/ngx_http_monitoring_sse.c:144-187 | the write in place is the run of its steps, with each of its ways out |
| `SseHandlers.Handler.Start` | src/ngx_http_monitoring_sse.c:77-88 | registration, first write and timer are the run of their steps |
| `SseHandlers.Handler.OnTimer` | src/ngx_http_monitoring_sse.c:93-116 | closed, buffered and writing ticks are the run of their steps |
| `SseHandlers.Handler.OnCleanup` | src/ngx_http_monitoring_sse.c:121-139 | the guarded cleanup is the run of its steps, and a second one changes nothing |
| `SseHandlers.WriteEnds` | src/ngx_http_monitoring_sse.c:158-187 | a write either reports one more event under the client's next id or leaves events and sequence alone |
| `SseTimers.TimersRight` | src/ngx_http_monitoring_sse.c:77-116 | in every interleaving an open client between two handlers has its timer set if and only if no handler of it has given the request up |
| `SseTimers.BufferedTickWaits` | src/ngx_http_monitoring_sse.c:106-109 | a tick that finds data buffered changes nothing, the timer included |
| `SseTimers.OpenClientWrites` | src/ngx_http_monitoring_sse.c:93-187 | after a drain the next tick of such a client writes: one more event under its next id from its other buffer, pending exactly if the data stayed, and the timer set again |
| `SseTimers.PendingUntilDrained` | src/ngx_http_monitoring_sse.c:93-187 | until its next drain a client with a pending buffer keeps it, begins no write and sends nothing, whatever else happens |
| `JsonText.QuoteRoundTrip` | src/ngx_http_monitoring_json.c:365-402 | an escaped string reads back to the same bytes by section 7 of RFC 8259, whatever follows its closing quote |
| `JsonText.EscapedIsClean` | src/ngx_http_monitoring_json.c:365-402 | no raw control byte inside the quotes, an odd number of backslashes before every inner quote, and none left over to escape the closing one |
| `JsonText.NumberRoundTrip` | src/ngx_http_monitoring_json.c:760-764 | printed numbers read back to the same digits by section 6 of RFC 8259 |
| `JsonText.PrintRoundTrip` | src/ngx_http_monitoring_json.c:739-767 | reading inverts printing for every nested value, whatever follows it |
| `Utf8Text.EscapeFeeds` | src/ngx_http_monitoring_json.c:365-402 | escaping neither repairs nor breaks UTF-8 |
| `Utf8Scalars.WellFormedIff` | src/ngx_http_monitoring_json.c:739-767 | the byte-by-byte test of UTF-8 used for all written text accepts exactly the encodings of sequences of scalar values |
| `Utf8Text.PrintWellFormedIff` | src/ngx_http_monitoring_json.c:739-767 | printed text is well-formed UTF-8 if and only if every string in it is |
| `JsonWriter.Writer.Append` | src/ngx_http_monitoring_json.c:316-333 | the buffer stays a prefix of the unbounded output, all of it exactly while not failed; the exact condition of failure |
| `JsonWriter.Writer.Printf` | src/ngx_http_monitoring_json.c:336-362 | the same for a formatted write, which also fails when it fills the buffer to its end |
| `JsonWriter.Writer.Char` | src/ngx_http_monitoring_json.c:375-398 | one byte is written in its escaped form, with the exact condition of failure |
| `JsonWriter.Writer.String` | src/ngx_http_monitoring_json.c:365-402 | the loop's output is the quoted escape of its input, or the buffer holds a prefix of that and failure stays |
| `TopList.BuildView` | src/ngx_http_monitoring_json.c:869-882 | the view holds the hit slots in slot order, with keys cut to the buffer |
| `TopList.ShiftIn` | src/ngx_http_monitoring_json.c:964-973 | the inner loop inserts one view behind all that have as many hits |
| `TopList.SortTop` | src/ngx_http_monitoring_json.c:958-975 | the in-place sort of the first n views gives the specified order and touches nothing beyond |
| `TopList.SortedIsStableSort` | src/ngx_http_monitoring_json.c:958-975 | that order is non-increasing in hits, a permutation, and keeps ties in slot order |
| `TopList.StableSortIsUnique` | src/ngx_http_monitoring_json.c:958-975 | no other order has these properties |
| `TopList.OccupiedPrefix` | src/ngx_http_monitoring_json.c:739-747 | the place of a hit slot in the list is the number of hit slots before it, for any pattern of empty slots |
| `ListText.AvgIsNearest` | src/ngx_http_monitoring_json.c:890-892 | the average shown is a nearest thousandth of latency by hits |
| `ListText.TopObject` | src/ngx_http_monitoring_json.c:894-904 | the pieces written for one entry are the text of one JSON object |
| `ListText.WriteTop` | src/ngx_http_monitoring_json.c:890-904 | one entry's writes extend the output by that object |
| `ListText.WriteTopEntries` | src/ngx_http_monitoring_json.c:854-908 | unless the writer failed, parsing what was written returns exactly the hit entries' keys, counters and averages in sorted order; without memory the writer fails |
| `ListText.WriteTopTables` | src/ngx_http_monitoring_json.c:719-728 | both lists of the requests object, each with its own key name and capacity |
| `ListUtf8.TopTextWellFormedIff` | src/ngx_http_monitoring_json.c:854-908 | a list is well-formed UTF-8 if and only if every key shown is |
| `ListText.PeerObject` | src/ngx_http_monitoring_json.c:757-764 | the pieces written for one peer are the text of one JSON object |
| `ListText.WriteUpstreams` | src/ngx_http_monitoring_json.c:731-768 | unless the writer failed, parsing what was written returns exactly the used peers in slot order |
| `ListUtf8.PeerTextWellFormedIff` | src/ngx_http_monitoring_json.c:731-768 | the upstream list is well-formed UTF-8 if and only if every peer shown is |
| `ListUtf8.CutKeepsIff` | src/ngx_http_monitoring_shm.c:397-397 | a well-formed key is well-formed after the cut to 127 bytes if and only if it is shorter than 128 bytes or the first byte cut off is not a continuation byte |
| `ListUtf8.CutCanSplit` | src/ngx_http_monitoring_shm.c:397-397 | a well-formed key whose cut to 127 bytes is not |
| `ListUtf8.TopRunWellFormedIff` | src/ngx_http_monitoring_json.c:854-908 | after any run of updates with well-formed keys a list is well-formed if and only if the cut keeps the key each entry was inserted with |
| `ListUtf8.PeerRunWellFormedIff` | src/ngx_http_monitoring_json.c:731-768 | the same for the upstream list |
| `ListText.DocumentRoundTrip` | src/ngx_http_monitoring_json.c:854-908 | a whole printed document reads back with nothing left over |
| `ListFields.ItemShowsSlot` | src/ngx_http_monitoring_json.c:869-904 | what a reader of a top list finds in every object under each name is the field of one hit slot: key, hits, errors, bytes, average latency, last seen |
| `ListFields.SlotIsShown` | src/ngx_http_monitoring_json.c:869-904 | every hit slot is shown so by an object of the list |
| `ListFields.ItemsAreOrdered` | src/ngx_http_monitoring_json.c:884-908 | there are as many objects as hit slots, and the hits they show never rise |
| `ListFields.PeerIsShown` | src/ngx_http_monitoring_json.c:739-764 | the object of a hit peer stands at the place of its slot and shows each of its fields under its name |
| `ListFields.TopTablesRead` | src/ngx_http_monitoring_json.c:719-728 | the pieces written around both lists make them members of the enclosing object, each under its own name |
| `MountFields.NextMountField` | src/ngx_http_monitoring_collectors.c:847-876 | the tokenizer's two loops and its cut are one call of the specified tokenizer |
| `MountFields.NextStaysInLine` | src/ngx_http_monitoring_collectors.c:847-876 | a call never passes the line's end, and a field lies before the new cursor |
| `MountFields.CopyMountField` | src/ngx_http_monitoring_collectors.c:879-910 | the copy is the decoded field cut to size - 1 bytes and terminated, and writes nothing beyond |
| `MountFields.RemainingIsDecoded` | src/ngx_http_monitoring_collectors.c:892-907 | the bytes delivered are the octal decoding of the C string at the start |
| `MountFields.DecodeInvertsEscaped` | src/ngx_http_monitoring_collectors.c:892-907 | decoding undoes the escaping of any byte string that escapes at least blank, tab, newline and backslash |
| `MountFields.DecodeOctal` | src/ngx_http_monitoring_collectors.c:892-903 | any three octal digits after a backslash become the low 8 bits of their value |
| `MountFields.DecodePlain` | src/ngx_http_monitoring_collectors.c:905-906 | every other byte, a lone backslash included, stands for itself |
| `MountFields.NextCutsField` | src/ngx_http_monitoring_collectors.c:854-875 | one call cuts exactly the field ahead and steps over its break unless that ends the line |
| `MountFields.NextStopsAtEnd` | src/ngx_http_monitoring_collectors.c:854-861 | before a newline or the end of the line a call finds nothing, cuts nothing and stops there |
| `MountFields.FieldOrEnd` | src/ngx_http_monitoring_collectors.c:847-876 | a call always stands before a field or before the end of the line |
| `MountFields.FieldsRoundTrip` | src/ngx_http_monitoring_collectors.c:847-910 | for any number of non-empty fields, escaped and joined by blanks, the calls split them and decoding restores every one |
| `MountFields.ReadMount` | src/ngx_http_monitoring_collectors.c:619-632 | three cuts and two copies: for every line written with sufficient escaping, path and type are the original second and third field, cut to their buffers |

## Left out

- `JsonText.PrintRoundTrip`: the reader knows no white space between tokens, no signs or exponents, no literals and no surrogate pairs, since the arrays modelled contain none.
- `RequestCounters.Requests.AccountRequest`: the method bit test and the clock arithmetic of the latency are inputs.
- `HistoryRace.AccessesInBounds`: what a reader sees in a slot while it is being filled is not claimed, only that the slot is in the array.
- `LatencyHistogram.ReportedPercentilesOrdered`: speaks of one state of the counters; for counters that move see `RisesSurelyIff` and `FallsSurelyIff`.
- `TopTableErrors.OrderedIff`: the separate increments of bytes, latency and errors after a hit are one step, and the time of the last hit is not tracked in the interleaved table.
- `RequestEntries.UrlsAreRun`: the configured number of URLs is the same for all calls.
- `ListText.WriteUpstreams`: needs a NUL in every key buffer, which the table's own updates guarantee.
- The JSON text of history, workers, histograms, system and health, the Prometheus text and the event payload: sequences of formatted writes over single numbers.
- Reading `/proc`, `statvfs` and network interfaces: foreign calls whose results are inputs.
- Basic authentication, tokens, access lists, endpoint matching and configuration directives: flat branching.
- A worker that dies while holding `collector_lock`, and a change of the maximum number of top URLs across reloads.
- Slab allocation, pools, output filters and timers of nginx itself: abstract steps or a mutex.
