# Verification of the signal, correlation and release-gate cores

The toolkit observes LLM services through kernel probes, joins what they report to request spans, attributes
incidents to fault domains and gates releases on measured latencies. This project models the algorithms in the middle
of that pipeline in Dafny and proves what they promise on all inputs and over all runs. Check it with
`dafny verify dfyconfig.toml`.

How the parts fit together:

* **Release gate.** `MannWhitney` proves that sorting, scanning tie groups and adding up midranks computes the same
  statistic as counting pairs, for whatever order an unstable sort leaves ties in, and `RankVariance` that the variance
  it is judged by is that of midranks drawn from the pool. `Quantiles`, `Bootstrap` and `Significance` build the gate's
  verdict on it. Values are reals; `sqrt` and `erf` are functions with the few facts the test needs; the random source
  is an arbitrary stream of numbers with a position.
* **Ring-buffer path.** `EventCodec` is the packed 40-byte record, `LatencyProbe` the seven start/end probe programs
  as one machine with two orderings (`ProbeReports` says what becomes of every event, `KeyIsolation` when keys are
  independent), and `RingBufConsumer` the goroutines, channels and wait group of the consumer as a step system whose
  every interleaving is considered (`RingBufRuns` relates a run to the calls in it). `LatencyProbe.RingDecodes` joins
  the producer to the decoder.
* **Correlation.** `Correlation` is the tiered match, `Evaluator` the labelled evaluation on top of it, and
  `Correlator` the span enrichment with its fanout cut, in-place maps and batches.
* **Stateful guards.** `RetryStorm`, `RateLimiter`, `Generator` and `ProbeManager` are classes whose methods are tied
  to a function of, or a balance over, their whole call history.
* **Attribution.** `Attribution` proves that the log-space computation equals normalised products over the
  domains, and how posteriors react to evidence; `AttributionOdds` derives every posterior from the configured tables.
* `Basics`, `Sums`, `Ordering` and `PairCounts` hold what several of them share; `SloCalculator` reuses the quantile.

Methods take the form of the source's loops and updates, and each is proved against a function of its inputs or of
its history; lemmas about those functions state what the source promises.

## Where the code does not do what one might expect

The model follows the code. Each of these is proved, with the exact condition where a law stops holding:

* The continuity correction is applied even when wins and losses balance, so a perfectly balanced pair of samples gets a
  p-value below 1 while a minimally unbalanced one gets exactly 1 (`LargerDeviationLargerPValue`: among samples with
  equal variance of U this is the only inversion).
* The effect size enters the verdict by absolute value, so a candidate that loses most comparisons can be flagged:
  `FlaggedWithNegativeDelta` says exactly when some draws do it under given settings, `NegativeDeltaCanFail` for which
  samples it can happen at all.
* Fewer than ten bootstrap rounds disable the significance gate; from ten on some draws flag whatever exceeds the other
  limits (`SomeDrawsFlag`).
* A window that is not positive means the default, so narrowing a window to zero or below can add matches:
  `ZeroWindowIsDefault` says exactly which.
* The storm detector prunes from the front only, every call forgets what it prunes, and nothing bounds a window from
  above. With timestamps out of order a call is exact for the window that ends at its time if and only if no stale event
  hides behind a fresh one in the bucket, no fresh one there is later than the call, and no event that an earlier call
  dropped lies inside (`QueryExactly`, `RecordExactly`). `QueryCountError` gives the size of the error, and
  `EveryQueryExact` says from when on all queries are exact.
* The rate limiter forgets a second when the clock leaves it: `AdmissionsInSecond` says what a second admits when the
  clock comes back.
* Registering a second probe for a signal displaces the first without closing it (`DisplacedIsNeverClosed`,
  `DisplaceAndDetach`).
* Cancellation may discard one decoded event per reader, the one it was about to send, even if the channel has room:
  an event is lost if and only if that branch was taken (`LossExactly`), and every event in hand can be lost that way
  (`EventInHandCanBeLost`, `SomeRunLosesAnEvent`).

## Model

| member | source | states |
|---|---|---|
| MannWhitney.SortPoints | pkg/releasegate/gate.go:834-836 | The sort may return any permutation ordered by value; nothing is promised about the order within a tie |
| MannWhitney.RankGroup | pkg/releasegate/gate.go:841-853 | One round of the tie scan: finds where the group ends, gives every member the group's midrank (points below plus half the group), leaves earlier ranks alone and returns the group's share of the tie sum |
| MannWhitney.RankPoints | pkg/releasegate/gate.go:838-854 | After the whole scan every position holds the midrank of its value and the accumulated tie sum is the sum of (ties squared minus one) over all pooled values |
| MannWhitney.RankSumCountsPairs | pkg/releasegate/gate.go:856-865 | For every order the sort may leave ties in, the rank sum of x is nx(nx+1)/2 plus the pairs x wins plus half the tied pairs |
| MannWhitney.RanksTotal | pkg/releasegate/gate.go:838-854 | All midranks together are n(n+1)/2, whatever is tied |
| MannWhitney.TieCorrectionBound | pkg/releasegate/gate.go:849-852 | The tie sum lies between 0 and n^3-n and reaches n^3-n exactly when all pooled values are equal |
| MannWhitney.VarianceGuard | pkg/releasegate/gate.go:871-874 | The variance is never negative and the early return fires exactly when all pooled values are equal |
| RankVariance.VarianceIsRankVariance | pkg/releasegate/gate.go:869-871 | The variance times n(n-1) is nx*ny times the sum over the pool of the squared distances of the midranks from (n+1)/2: it is the variance of the sum of nx midranks drawn without replacement, ties included |
| RankVariance.PValueWritten | pkg/releasegate/gate.go:876-883 | Unless all values are tied, the p-value is 1 - erf(abs(dev - 1/2)/sqrt(variance)/sqrt(2)) for the distance dev of u from its mean |
| MannWhitney.MinStatistic | pkg/releasegate/gate.go:865-870 | u1 and u2 share out all nx*ny pairs, and the smaller one lies below the mean by half the difference between wins and losses |
| MannWhitney.UStatistic | pkg/releasegate/gate.go:834-865 | The computed u1 is wins plus half the ties, counted over all index pairs |
| MannWhitney.TwoSidedTail | pkg/releasegate/gate.go:876-890 | On either side of the mean, the corrected two-sided tail depends on the distance from the mean alone, and neither clamp ever changes it |
| MannWhitney.MannWhitneyPValue | pkg/releasegate/gate.go:816-891 | The whole function returns the p-value defined by pair counts, independent of the order of ties; 1 for an empty sample or all-tied values |
| MannWhitney.PValueRange | pkg/releasegate/gate.go:883-890 | The p-value lies in (0, 1]; it is 1 exactly for an empty sample, all-tied values or a deviation of one half |
| MannWhitney.CountPairs | pkg/releasegate/gate.go:897-908 | The nested loops count exactly the index pairs with x above y and with x below y |
| MannWhitney.EffectMeasuresAgree | pkg/releasegate/gate.go:856-911 | Cliff's delta equals 2*u1/(nx*ny) - 1, where u1 comes from the ranks in any order the sort may leave |
| MannWhitney.DeltaRange | pkg/releasegate/gate.go:893-911 | Delta lies between -1 and 1 |
| MannWhitney.DeviationFromDelta | pkg/releasegate/gate.go:865-876 | The distance of u from its mean is abs(delta)*nx*ny/2 |
| MannWhitney.SwapKeepsPValue | pkg/releasegate/gate.go:816-891 | Exchanging the samples keeps the p-value |
| MannWhitney.SwapNegatesDelta | pkg/releasegate/gate.go:893-911 | Exchanging the samples negates delta |
| MannWhitney.ChangeOfUnitsKeepsPValue | pkg/releasegate/gate.go:816-891 | Applying any strictly increasing function to both samples keeps the p-value |
| MannWhitney.ChangeOfUnitsKeepsDelta | pkg/releasegate/gate.go:893-911 | Applying any strictly increasing function to both samples keeps delta |
| MannWhitney.PValueOrder | pkg/releasegate/gate.go:876-883 | At equal variance the p-value is the smaller the further the deviation is from one half |
| MannWhitney.LargerDeviationLargerPValue | pkg/releasegate/gate.go:876-883 | At equal variance a larger deviation has a larger p-value if and only if it is one half and the smaller one is zero: the continuity correction is also applied where there is no difference |
| MannWhitney.BalancedSamplesLookSignificant | pkg/releasegate/gate.go:876-883 | Concrete samples: a perfectly balanced pair has a p-value below 1 while an unbalanced one has exactly 1 |
| PairCounts.PairsSwap | pkg/releasegate/gate.go:899-908 | Wins of x over y are exactly the losses of y against x, and ties stay ties |
| PairCounts.PairsUnderTransform | pkg/releasegate/gate.go:899-908 | Win, loss and tie counts depend only on the order of the pooled values |
| PairCounts.PairScoreComplement | pkg/releasegate/gate.go:865-866 | Scoring a win as one point and a tie as half, both samples together score one point per pair |
| Quantiles.ComputeQuantile | pkg/releasegate/gate.go:737-760 | Clamping, copying, in-place sort and index arithmetic give the piecewise linear curve through the sorted values at q(n-1); 0 for no values |
| Quantiles.QuantileOrderFree | pkg/releasegate/gate.go:747-748 | Permuting the values does not change a quantile |
| Quantiles.QuantileOnLine | pkg/releasegate/gate.go:750-759 | For q in [0, 1] the quantile lies q(n-1) steps into the sorted values, on the straight line between the two neighbours there, for any ascending arrangement of the values |
| Quantiles.QuantileAtEnds | pkg/releasegate/gate.go:741-746 | For q outside of [0, 1] it is the smallest or the largest value |
| Quantiles.QuantileSplitsSample | pkg/releasegate/gate.go:752-759 | At least floor(q(n-1))+1 values are at or below the quantile and at least n-ceil(q(n-1)) at or above it |
| Quantiles.QuantileBounds | pkg/slo/calculator.go:121-149 | A quantile lies within any bounds of the data and is a data value at q=0 and q=1 |
| Quantiles.QuantileMonotoneInQ | pkg/slo/calculator.go:121-149 | Quantiles do not fall as q grows |
| Quantiles.QuantileMonotoneInData | pkg/slo/calculator.go:121-149 | Quantiles do not fall when values grow pointwise, even if that reorders them |
| Quantiles.QuantileSeparates | pkg/releasegate/gate.go:737-760 | If all of one sample lies below (strictly below) all of another, so does every quantile, for any two q |
| Bootstrap.DrawDeltas | pkg/releasegate/gate.go:922-934 | The resampling loop, with both buffers overwritten in place, yields the differences defined draw by draw, candidate before baseline |
| Bootstrap.Percentiles | pkg/releasegate/gate.go:936-945 | The two index corrections never fire; the ends are the sorted differences at floor(0.025(n-1)) and ceil(0.975(n-1)) |
| Bootstrap.BootstrapDeltaCI | pkg/releasegate/gate.go:917-946 | The interval is the percentile interval of the resampled differences and the stream has advanced by one draw per buffer element and round; zero and no draw below ten rounds or for an empty sample |
| Bootstrap.IntervalCoverage | pkg/releasegate/gate.go:936-945 | Of any non-empty list of differences the interval holds at least 95 percent; it is never inverted and both ends occurred |
| Bootstrap.IntervalTails | pkg/releasegate/gate.go:936-945 | Each end is the one and only value that cuts off 0.025(n-1) of the n differences on its side: no more than that lie strictly beyond it, and more than that once its equals are counted |
| Bootstrap.DrawsPerCall | pkg/releasegate/gate.go:918-933 | A call uses one draw per value of either sample and round, and none below ten rounds or for an empty sample |
| Bootstrap.IntervalSign | pkg/releasegate/gate.go:917-946 | For every draw sequence: above zero if all candidate values exceed all baseline values (from ten rounds on), not reaching above zero if none does, never inverted |
| Bootstrap.InOrderInterval | pkg/releasegate/gate.go:922-945 | For every pair of samples, start and number of rounds from ten on, some draws make the interval exactly the difference of the samples' own quantiles |
| Significance.AssessScenario | pkg/releasegate/gate.go:512-587 | One scenario: the verdict is the specified function of the samples, the settings and where the draws start, and the stream has advanced accordingly |
| Significance.EvaluateSignificance | pkg/releasegate/gate.go:464-591 | Verdicts in scenario order with the shared stream threaded through; the gate passes exactly when all do; the first scenario with an empty distribution is an error |
| Significance.PercentOfBaseline | pkg/releasegate/gate.go:513-517 | The change times a positive baseline is 100(c - b), so it exceeds a positive limit exactly if b is positive and 100(c - b) > limit*b |
| Significance.VerdictMeans | pkg/releasegate/gate.go:523-587 | For any settings and draws, which of the four reasons applies and whether the scenario passes, in terms of sample counts, 100(c - b) against limit*b, p-value, interval and absolute delta |
| Significance.FlaggedMeans | pkg/releasegate/gate.go:553-585 | A failure implies a higher P95, not all values tied, at least ten rounds, some candidate value above some baseline value, and delta not zero |
| Significance.DominatedPasses | pkg/releasegate/gate.go:553-585 | A candidate that nowhere exceeds the baseline is never flagged, for any draws and settings |
| Significance.SameSamplePasses | pkg/releasegate/gate.go:512-585 | A candidate with the baseline's values in any order is never flagged |
| Significance.SeparatedVerdict | pkg/releasegate/gate.go:553-585 | If every candidate value exceeds every baseline value, failing is decided by the P95 change and the p-value alone, for any draws |
| Significance.SomeDrawsFlag | pkg/releasegate/gate.go:553-585 | Some draws flag a scenario with enough samples if and only if at least ten rounds are configured and the P95 change, the p-value and the absolute delta all pass their limits |
| Significance.FlaggedWithNegativeDelta | pkg/releasegate/gate.go:559-585 | Some draws flag a scenario whose delta is negative if and only if, besides, delta is at or below the negated limit: the effect size is taken by absolute value |
| Significance.NegativeDeltaCanFail | pkg/releasegate/gate.go:512-585 | In terms of two samples alone: some valid settings and draws flag them despite a negative delta if and only if the candidate's P95 lies above a positive baseline P95 and it loses at least two comparisons more than it wins |
| Significance.FlaggedDespiteNegativeDelta | pkg/releasegate/gate.go:559-585 | One such pair of samples |
| SloCalculator.Aggregate | pkg/slo/calculator.go:96-119 | Every percentile is the quantile of the clamped measurements; P50 <= P95 <= P99 for TTFT and P50 <= P95 for tokens, all nonnegative |
| SloCalculator.CollectMeasurements | pkg/slo/calculator.go:97-107 | The append loop collects the three measurement lists, clamped at zero |
| SloCalculator.MeasurementsAreClamped | pkg/slo/calculator.go:90-109 | Measurements that are not negative enter as they are, negative ones as zero, and a retrieval without negative parts as their sum |
| SloCalculator.NegativePartsCountAsZero | pkg/slo/calculator.go:90-93 | A negative part of a retrieval can be replaced by zero without changing the total |
| SloCalculator.SlowerRequestsRaiseTtft | pkg/slo/calculator.go:96-119 | Raising TTFTs, negative ones included, never lowers a TTFT percentile |
| EventCodec.FromLEToLE | pkg/collector/ringbuf.go:154-161 | Reading n little-endian bytes of a value that fits gives the value |
| EventCodec.ToLEFromLE | pkg/collector/ringbuf.go:154-161 | Writing the value read from n bytes gives the bytes |
| EventCodec.LastByteWeighsMost | pkg/collector/ringbuf.go:157 | A byte appended to a number adds itself times 256 to the number of bytes before it |
| EventCodec.SignedBits | ebpf/c/llm_slo_event.h:41 | A signed field and its bits agree or differ by 2^32, and both conversions undo each other |
| EventCodec.EncodedFields | ebpf/c/llm_slo_event.h:32-42 | Where each of the nine fields lies in a packed record |
| EventCodec.DecodeEncode | pkg/collector/ringbuf.go:42-52 | Decoding a packed record gives back all nine fields, whatever bytes follow |
| EventCodec.EncodeDecode | ebpf/c/llm_slo_event.h:32-42 | Re-encoding a decoded buffer gives its first 40 bytes |
| EventCodec.DecodePrefix | pkg/collector/ringbuf.go:154-161 | Decoding fails exactly below 40 bytes, and two buffers decode alike exactly if their first 40 bytes agree |
| RingBufConsumer.StepKeepsInv | pkg/collector/ringbuf.go:91-152 | Every step of the starter, the readers and their surroundings keeps the invariant tying wait group, program counters and channel states |
| RingBufConsumer.RunKeepsInv | pkg/collector/ringbuf.go:91-152 | The invariant holds after every interleaving |
| RingBufConsumer.NoPanicAndOrderlyClose | pkg/collector/ringbuf.go:91-115 | In every interleaving of one Start: no send on a closed channel and no double close; the buffer stays within capacity; done closes after events, and events only after every reader has finished; no reader exits before cancellation |
| RingBufRuns.StartTakesAllReaders | pkg/collector/ringbuf.go:77-104 | In every run from a new consumer Start works on exactly as many readers as were added before its first step, and none of them is left unstarted once its loop is done |
| RingBufRuns.SendWaitsExactlyWhenFull | pkg/collector/ringbuf.go:66-75 | In every run from a new consumer a reader with an event in hand can send it if and only if sends minus receives so far are below the capacity asked for, or 256 if that was below one |
| RingBufConsumer.EventsArriveInOrder | pkg/collector/ringbuf.go:122-152 | What reader i decoded is what reached the channel from it, in order, followed by at most one event in hand or discarded; a discard needs a cancellation and ends the reader |
| RingBufConsumer.LossExactly | pkg/collector/ringbuf.go:146-150 | Over every run, what reader i decoded falls short on the channel, but for the event in hand, if and only if the run took its cancellation branch with an event in hand |
| RingBufConsumer.EventInHandCanBeLost | pkg/collector/ringbuf.go:146-150 | After any run a reader with an event in hand can lose it, even with room in the channel: cancellation enables the branch that gives it up |
| RingBufConsumer.SomeRunLosesAnEvent | pkg/collector/ringbuf.go:66-152 | For every capacity and every decodable record there is a run from a new consumer that loses its event |
| RingBufConsumer.MeasureDecreases | pkg/collector/ringbuf.go:103-152 | After cancellation every program step lowers the measure and no outside step raises it |
| RingBufConsumer.ShutdownIsBounded | pkg/collector/ringbuf.go:103-152 | After cancellation a run holds at most 7n+6 more program steps, however receives and outside steps are interleaved |
| RingBufConsumer.ShutdownNeverStuck | pkg/collector/ringbuf.go:103-152 | After cancellation, until Start has stopped, some step that waits on nobody outside is enabled |
| RingBufConsumer.ShutdownCompletes | pkg/collector/ringbuf.go:108-115 | A cancelled run that cannot continue by itself has stopped, with all readers finished, the wait group at zero and both channels closed |
| LatencyProbe.Probe.OnStart | ebpf/c/dns_latency.bpf.c:51-77 | The start handler: port filter, then a map update that fails only for a new key in a full map; the map is the replay of the history |
| LatencyProbe.Probe.EndDeleteFirst | ebpf/c/runqueue_delay.bpf.c:48-84 | Lookup, delete, filter, reserve, submit: reaches the specified map and ring contents |
| LatencyProbe.Probe.EndReserveFirst | ebpf/c/dns_latency.bpf.c:79-108 | Lookup, reserve, delete on both ways out: reaches the same specification as the other ordering |
| LatencyProbe.Probe.OnEnd | ebpf/c/syscall_latency.bpf.c:41-72 | An end event in the program's own ordering: map and submitted bytes are those of the extended history |
| LatencyProbe.PendingIsLatestStart | ebpf/c/runqueue_delay.bpf.c:32-36 | Over every history a pending entry is the latest recorded start of its key, with no end of that key since |
| LatencyProbe.EmittedValue | ebpf/c/disk_io_latency.bpf.c:48-84 | An emitted value is end minus latest start of the same key modulo 2^64, exactly so if the clock did not go back, and not below the threshold |
| ProbeReports.ReportedExactly | ebpf/c/syscall_latency.bpf.c:41-72 | For every end event with a latest start of its key: it is reported if and only if the time between them reaches the program's limit in nanoseconds and the ring buffer has room; dropped if only room is missing, filtered if too short |
| ProbeReports.UnmatchedEndDoesNothing | ebpf/c/runqueue_delay.bpf.c:48-56 | An end event is ignored if and only if no start of its key is waiting |
| ProbeReports.ReportCarries | ebpf/c/connect_latency.bpf.c:60-88 | A report carries its program's signal number, end minus latest start modulo 2^64, and the connection that start stored; only the connection probes carry one |
| ProbeReports.ReportNames | ebpf/c/runqueue_delay.bpf.c:66-84 | A report names the running task, or the process a run-queue delay is keyed by; a failed connect its error number and a TLS handshake whether it failed |
| ProbeReports.RefusedExactly | ebpf/c/dns_latency.bpf.c:51-77 | A start is refused if and only if it is tracked, no start of its key is waiting and as many starts wait as the map holds; it is untracked exactly for DNS and a port other than 53 |
| LatencyProbe.EmittedOncePerStart | ebpf/c/mem_reclaim.bpf.c:40-71 | Two emissions never report the same start |
| LatencyProbe.Accounting | ebpf/c/syscall_latency.bpf.c:35-72 | Tracked starts = refused + overwritten + pending + consumed, consumed = emitted + filtered + dropped, and the ring holds exactly the emitted ones |
| LatencyProbe.MapStaysBounded | ebpf/c/connect_latency.bpf.c:27-88 | The map never exceeds its declared size and no path leaves a key behind after its end event |
| KeyIsolation.KeysDoNotInterfere | ebpf/c/tls_handshake.bpf.c:22-71 | Entry and records of a key are those of its own events alone, all along a history, if and only if none of its starts met a full map |
| LatencyProbe.RingDecodes | pkg/collector/ringbuf.go:154-161 | Every submitted record decodes in the consumer to the emitted event, in order, with the program's signal type and a value at or above its threshold |
| Correlation.MatchIsBestTier | pkg/correlation/dns.go:50-76 | The cascade returns the most confident tier whose identities and reach apply, and matches exactly if one does |
| Correlation.TierFigures | pkg/correlation/dns.go:50-76 | What each tier is worth and how far it reaches, in nanoseconds, for every window |
| Correlation.CloserIsNoWorse | pkg/correlation/dns.go:50-113 | Same identities at a smaller distance: the confidence is not lower |
| Correlation.WideningKeepsMatches | pkg/correlation/dns.go:50-76 | Widening a positive window keeps every match with its confidence and tier |
| Correlation.ZeroWindowIsDefault | pkg/correlation/dns.go:51-53 | Every window at or below zero means the default: it yields a match that a positive window does not, or not alike, if and only if the default window matches a pair further apart than the positive one |
| Correlation.ZeroWindowGainsMatch | pkg/correlation/dns.go:51-60 | Such a pair: one trace, five nanoseconds apart, matched by a window of zero and not by one of a nanosecond |
| Evaluator.EvaluateLabeledPairs | pkg/correlation/evaluator.go:90-167 | Each counter of the report is the number of pairs in its cell; precision, recall, F1, tier accuracy and mean confidence are the quotients of those counts, zero where undefined |
| Evaluator.CellsPartition | pkg/correlation/evaluator.go:135-144 | The four cells add up to the sample size |
| Evaluator.HigherThreshold | pkg/correlation/evaluator.go:115-155 | Over every dataset, raising a positive threshold never raises TP, FP or recall |
| Evaluator.WiderWindow | pkg/correlation/evaluator.go:115-155 | Over every dataset, widening a positive window never lowers TP, FP or recall |
| Evaluator.F1BetweenPrecisionAndRecall | pkg/correlation/evaluator.go:154-158 | Whenever precision + recall > 0, F1 lies between them |
| Evaluator.RatesFromCounts | pkg/correlation/evaluator.go:154-158 | precision(tp+fp) = tp, recall(tp+fn) = tp and f1(2tp+fp+fn) = 2tp over every dataset, all three zero without a true positive |
| Evaluator.PredictionMeans | pkg/correlation/evaluator.go:95-117 | A pair is predicted if and only if its confidence reaches the threshold, which is 0.7 if not positive |
| Evaluator.TierAccuracyMeans | pkg/correlation/evaluator.go:146-161 | The tier accuracy lies in [0, 1] and is 1 if and only if every predicted expected match that names a tier names the one that matched |
| Evaluator.MeanConfidenceBetween | pkg/correlation/evaluator.go:131-164 | The mean confidence lies within any bounds on the confidences of the predicted pairs |
| Evaluator.MeanConfidenceRange | pkg/correlation/evaluator.go:162-164 | The mean confidence of predicted pairs lies between the threshold and one |
| Correlator.EnrichAttributes | pkg/otel/processor/ebpfcorrelator/correlator.go:50-125 | Filter, stable sort, cut and max-merge: a fresh map with the specified contents, the kept candidates and the four counters |
| Correlator.CollectCandidates | pkg/otel/processor/ebpfcorrelator/correlator.go:74-98 | The filtering loop appends exactly the eligible signals in input order and counts the others by reason |
| Correlator.FateMeans | pkg/otel/processor/ebpfcorrelator/correlator.go:58-86 | Which signals are unsupported, unmatched, of low confidence or eligible, with the window in milliseconds times a million and 0.7 for a threshold that is not positive |
| Correlator.EligibleExactly | pkg/otel/processor/ebpfcorrelator/correlator.go:72-90 | A position of the input is among the candidates if and only if its signal is eligible |
| Correlator.WriteCandidates | pkg/otel/processor/ebpfcorrelator/correlator.go:107-118 | The merge loop writes, in place, the maxima over the kept candidates and returns their highest confidence |
| Correlator.CloneMap | pkg/otel/processor/ebpfcorrelator/correlator.go:196-202 | The clone is a new map with equal contents; the source keeps its own |
| Correlator.RankingIsUnique | pkg/otel/processor/ebpfcorrelator/correlator.go:89-98 | The ranking is the only sequence of the eligible signals strictly ordered by confidence, then time distance, then input position |
| Correlator.KeptAreTheBest | pkg/otel/processor/ebpfcorrelator/correlator.go:99-106 | Exactly min(fanout, m) are kept, they head the ranking, and every kept one ranks before every dropped one |
| Correlator.ConfidenceIgnoresFanout | pkg/otel/processor/ebpfcorrelator/correlator.go:107-118 | The reported confidence is the maximum over all eligible signals, dropped ones included, and is reported exactly if there is one |
| Correlator.MergedIsMaximum | pkg/otel/processor/ebpfcorrelator/correlator.go:107-115 | A merged attribute is present exactly when the base or a kept signal contends for it, and is the largest contender |
| Correlator.SpanAccounting | pkg/otel/processor/ebpfcorrelator/correlator.go:74-106 | Unsupported + unmatched + low confidence + fanout-dropped + kept = number of signals |
| Correlator.DecomposeRetrieval | pkg/otel/processor/ebpfcorrelator/correlator.go:179-194 | Returns the sum of the present components and, if positive, records it in the caller's map, changing nothing else |
| Correlator.ProcessBatch | pkg/otel/processor/ebpfcorrelator/processor.go:29-49 | Each output span is its input with a fresh unshared map filled as a run on that span alone would; input maps keep their contents; the diagnostics add up |
| Correlator.BatchAccounting | pkg/otel/processor/ebpfcorrelator/processor.go:51-58 | Over a batch the four drop counters and the kept candidates add up to spans times signals |
| Correlator.SignalAttributes | pkg/otel/processor/ebpfcorrelator/processor.go:29-49 | A finished signal attribute is the maximum of its base and kept values, present exactly when one exists |
| Correlator.ConfidenceAttribute | pkg/otel/processor/ebpfcorrelator/processor.go:29-49 | The confidence attribute is the best kept confidence exactly when a signal is eligible, else the input's |
| Correlator.RetrievalAttribute | pkg/otel/processor/ebpfcorrelator/correlator.go:179-194 | The retrieval attribute is the sum of the three finished components when that is positive, else the input's |
| Correlator.OtherAttributes | pkg/otel/processor/ebpfcorrelator/processor.go:29-49 | Every other attribute passes through unchanged |
| RetryStorm.Detector.RecordEvent | pkg/correlation/retry_storm.go:46-60 | For any timestamps the answer is whether the pruned bucket reaches the threshold; if the pod's clock did not go back, whether its whole record since the last reset has that many events in the window |
| RetryStorm.Detector.IsStorm | pkg/correlation/retry_storm.go:64-75 | The same for a query; a pod never recorded is no storm, even at a threshold of zero |
| RetryStorm.Detector.CountEvents | pkg/correlation/retry_storm.go:78-89 | The count is the bucket after pruning; with a clock that did not go back, the number of recorded events inside the window |
| RetryStorm.PruneOld | pkg/correlation/retry_storm.go:98-110 | The loop drops the longest stale prefix and copies the rest |
| RetryStorm.PruneExactly | pkg/correlation/retry_storm.go:98-110 | One pruning of a given list keeps exactly the events from the cutoff on if and only if all stale events come first; it never keeps fewer |
| RetryStorm.QueryExactly | pkg/correlation/retry_storm.go:62-89 | For arbitrary timestamps a query finds exactly the events recorded since the last reset inside the window that ends at its time if and only if no stale event hides behind a fresh one in the bucket, no fresh one there is later than the query, and nothing dropped earlier lies inside the window |
| RetryStorm.RecordExactly | pkg/correlation/retry_storm.go:46-60 | The same equivalence for a recording call, with the new event on both sides |
| RetryStorm.QueryCountError | pkg/correlation/retry_storm.go:62-89 | For arbitrary timestamps the count plus the dropped events inside the window equals the naive count plus the kept events outside it, be they stale or later than the query |
| RetryStorm.RecordCountError | pkg/correlation/retry_storm.go:43-60 | The same for the count a recording call compares with the threshold |
| RetryStorm.EveryQueryExact | pkg/correlation/retry_storm.go:62-110 | All queries from some time on are exact if and only if by then everything dropped is stale, nothing kept is later, and what is kept and not stale is in order behind the stale events; with a negative window, if and only if all kept events are stale |
| RetryStorm.LateQueryHidesEvent | pkg/correlation/retry_storm.go:64-110 | A concrete history in which an early query misses an event that a later-timed one dropped, with record and bucket in order |
| RetryStorm.EarlyQueryCountsLaterEvent | pkg/correlation/retry_storm.go:62-110 | A concrete history in which an early query counts an event recorded for a later time, with nothing dropped |
| RetryStorm.BucketIsSuffix | pkg/correlation/retry_storm.go:46-110 | For arbitrary timestamps a bucket is a suffix of what was recorded for its pod since the last reset |
| RetryStorm.BucketIsPrunedRecord | pkg/correlation/retry_storm.go:46-89 | With nondecreasing times per pod the bucket is the pod's record pruned once, at the latest time mentioned |
| RetryStorm.QueryMatchesNaiveCount | pkg/correlation/retry_storm.go:64-89 | A query no earlier than the pod's previous calls counts exactly the events since the last reset inside the window |
| RetryStorm.RecordMatchesNaiveCount | pkg/correlation/retry_storm.go:46-60 | So does a recording call, counting the new event |
| RetryStorm.QueriesChangeNoAnswer | pkg/correlation/retry_storm.go:46-89 | Removing all queries from a history with nondecreasing times per pod changes neither a later query, nor a later recording call, nor whether the pod is known |
| RetryStorm.PodsDoNotInterfere | pkg/correlation/retry_storm.go:46-89 | A bucket depends only on the calls for its own pod and the resets, for any timestamps |
| RateLimiter.Limiter.Allow | pkg/safety/rate_limiter.go:25-39 | One call extends the answered history by the admission the whole call history determines |
| RateLimiter.SecondMeans | pkg/safety/rate_limiter.go:26 | The second of a time is the whole number of seconds at or below it, also before the epoch |
| RateLimiter.CounterIsBlock | pkg/safety/rate_limiter.go:30-37 | The counter is the length of the current same-second block of calls, capped at the limit |
| RateLimiter.AdmissionsPerBlock | pkg/safety/rate_limiter.go:30-38 | For arbitrary call times admissions are the sum over maximal same-second blocks of min(limit, block length) |
| RateLimiter.AdmissionsBound | pkg/safety/rate_limiter.go:30-38 | Hence at most the limit times the number of blocks |
| RateLimiter.AdmissionsInSecond | pkg/safety/rate_limiter.go:25-39 | For arbitrary call times one second admits the sum of min(limit, length) over its maximal blocks of calls, so it exceeds the limit exactly when that sum does |
| RateLimiter.ClockGoesBack | pkg/safety/rate_limiter.go:30-38 | Concrete call times at which a second admits more than the limit |
| RateLimiter.AdmissionsPerSecond | pkg/safety/rate_limiter.go:25-39 | With nondecreasing times each second admits exactly min(limit, its calls) |
| RateLimiter.AdmissionsPerSlidingSecond | pkg/safety/rate_limiter.go:25-39 | With nondecreasing times any window of one second admits at most twice the limit |
| Generator.Generator.SetSignals | pkg/signals/generator.go:48-70 | The enabled set becomes the requested signals the mode supports, or all of them for an empty request |
| Generator.Generator.DisableHighestCost | pkg/signals/generator.go:103-113 | The loop removes and returns the first enabled signal of the disable order, if any |
| Generator.TablesFit | pkg/signals/constants.go:27-61 | The disable order has no duplicates and covers the signals of every mode |
| Generator.SheddingFollowsOrder | pkg/signals/generator.go:103-113 | k shedding calls remove exactly the first min(k, m) of the m enabled entries of the order, in order |
| Generator.SheddingEmptiesGenerator | pkg/signals/generator.go:92-113 | From any reachable set, shedding stays within it and empties it after exactly as many calls as it has members |
| ProbeManager.Manager.Register | pkg/collector/probe_manager.go:61-71 | Rejects signals outside the mode; otherwise the probe takes its signal, and a probe already there is displaced without being closed |
| ProbeManager.Manager.DisableProbe | pkg/collector/probe_manager.go:100-112 | Closes the signal's probe once and forgets it; otherwise nothing changes |
| ProbeManager.Manager.DetachAll | pkg/collector/probe_manager.go:89-97 | Closes every attached probe exactly once and forgets them all |
| ProbeManager.Manager.CheckOverhead | pkg/collector/probe_manager.go:128-156 | Only when the guard reports the budget exceeded: the first attached probe of the disable order, and no other, is closed once and forgotten |
| ProbeManager.FirstRegisteredMeans | pkg/collector/probe_manager.go:128-156 | Shed is the attached signal with no attached one before it in the order |
| ProbeManager.RegisterKeepsBalance | pkg/collector/probe_manager.go:61-71 | Registrations = closed + displaced + attached, probe by probe, survives a registration |
| ProbeManager.DetachKeepsBalance | pkg/collector/probe_manager.go:89-97 | The same balance survives detaching everything |
| ProbeManager.ClosedAtMostOnce | pkg/collector/probe_manager.go:61-187 | In every reachable state a probe registered once was closed at most once and never while attached; unless displaced, it is closed exactly if it is not attached |
| ProbeManager.DisplacedIsNeverClosed | pkg/collector/probe_manager.go:69 | In every reachable state a probe registered once is neither attached nor closed exactly if a later registration displaced it |
| ProbeManager.DisplaceAndDetach | pkg/collector/probe_manager.go:61-97 | Two probes registered for one signal and everything detached: the first is still open, the second is closed once |
| Attribution.FindElevated | pkg/attribution/bayesian.go:219-225 | The elevated set holds the known signals at or above their thresholds, whatever the map order |
| Attribution.LogPosterior | pkg/attribution/bayesian.go:230-241 | The loop over the likelihoods, in any map order, ends at a logarithm of prior times product of likelihoods |
| Attribution.MaxLog | pkg/attribution/bayesian.go:244-249 | The loop finds the largest log posterior, in any map order |
| Attribution.SumExp | pkg/attribution/bayesian.go:251-254 | The loop adds up the shifted exponentials, in any map order |
| Attribution.ShiftCancels | pkg/attribution/bayesian.go:251-259 | For every shift, the normalised exponential is the joint divided by the sum of all joints |
| Attribution.Attribute | pkg/attribution/bayesian.go:218-284 | The result is the ranking of prior-times-product posteriors with their evidence, free of logarithms and of map order |
| Attribution.PosteriorsAreADistribution | pkg/attribution/bayesian.go:244-259 | Posteriors are positive and add up to one |
| AttributionOdds.PosteriorsFollowPriors | pkg/attribution/bayesian.go:230-235 | Without likelihoods the odds of any two domains are the ratio of their priors, where a prior that is missing or not positive counts as 1e-10 |
| AttributionOdds.TableMovesOdds | pkg/attribution/bayesian.go:237-240 | Configuring one more signal multiplies the odds of any two domains by the ratio of its likelihoods or their complements, clamped to [0.01, 0.99], one half where missing; by induction this fixes every posterior |
| AttributionOdds.EvidenceIsFavourable | pkg/attribution/bayesian.go:262-269 | Evidence for a domain are the elevated signals configured as at least as likely elevated as not under it |
| AttributionOdds.ElevatedMeans | pkg/attribution/bayesian.go:194-225 | The twelve limits from which on signals are elevated; unknown signals never are |
| Attribution.RankingOrder | pkg/attribution/bayesian.go:257-283 | Every domain once, with its posterior and evidence, by falling posterior and by list position within ties |
| Attribution.TopPosterior | pkg/attribution/bayesian.go:279-283 | Posteriors fall along the ranking and the first is at least 1/8 and below 1 |
| Attribution.AttributeSample | pkg/attribution/bayesian.go:315-343 | Hypotheses are a non-empty prefix of the ranking cut exactly at 0.01, headed by the prediction, with over 0.93 of the mass; no signals leave the base attribution |
| Attribution.KeepHypotheses | pkg/attribution/bayesian.go:323-333 | On falling posteriors the filter keeps a prefix: exactly the entries at or above 0.01 |
| Attribution.DroppedMass | pkg/attribution/bayesian.go:323-333 | What the 0.01 cutoff drops weighs less than 0.07 |
| Attribution.OnlyElevatedMatters | pkg/attribution/bayesian.go:219-276 | Inputs that elevate the same configured signals get the same ranking, evidence included |
| Attribution.ClampComplement | pkg/attribution/bayesian.go:288-311 | The clamped complement is the complement of the clamped likelihood |
| Attribution.ElevationMovesOdds | pkg/attribution/bayesian.go:230-301 | One more elevated configured signal multiplies the odds of d against e by p(1-q)/(q(1-p)) for the clamped likelihoods p and q; they do not fall if and only if p >= q |
| Attribution.UnconfiguredSignal | pkg/attribution/bayesian.go:288-292 | A signal without likelihoods changes no posterior |
| Attribution.ElevationUpdatesPosterior | pkg/attribution/bayesian.go:230-301 | One more elevated configured signal multiplies each posterior by p/(1-p) over the mean of these ratios under the posteriors before; a posterior does not fall if and only if its ratio is at least that mean |
| Attribution.BestExplanationGains | pkg/attribution/bayesian.go:218-301 | If no domain explains a signal better than d, the posterior of d does not fall when the signal becomes elevated |

## Left out

- Floating-point rounding, NaN, infinities and overflow: values are reals, so a p-value rounded to 0 or a tie created by rounding is not seen.
- Saturation and monotonic readings of `time.Time`: times are unbounded integers of nanoseconds, with an unset value where the code checks for it.
- The algorithms inside the sort and math libraries, and the generator behind `math/rand`: sorts are any result their documentation allows, draws are an arbitrary stream reduced modulo the bound.
- Loading and writing of manifests, CSV, JSONL and schemas, and the failure texts of reports: the gate starts at the sample lists, and a failure is a reason without its wording.
- The baseline, overhead and variance gates, `mean` and `stddev`, and configuration defaulting: one comparison or one fold each. The token medians, which only decorate the significance report, are left out with them.
- The two textual copies of `quantile` are modelled once; they are the same computation.
- `toProbeEvent`, `signalFromType`, `convertValue` and address formatting after decoding: table lookups.
- A second call of `Start` on one consumer, and readers added while `Start` is copying the reader list.
- Kernel attachment, BTF and field reads by the probes; the padding bytes of the block key; delays of per-CPU free lists in the kernel's hash map: a new key is refused exactly when the map holds its declared maximum. The order of two end events racing on one key is the order of the history.
- `cpu_steal` and `tcp_retransmit` probes: they keep no start entry.
- `EnrichDNS` and `EnrichDNSAttributes`: single-signal variants of the modelled enrichment.
- Case identifiers and the list of predictions returned beside the evaluation report, and `EvaluateGate`: copies and two comparisons.
- `Calculate`, `TTFTMs` and `TokensPerSecond`: input validation and one quotient each.
- `Generate` and the fault profiles of the synthetic generator, the sorted listing `EnabledSignals`, and `AttachAll`, which only logs.
- The concrete default priors and likelihoods: every result holds for all tables. `BuildAttribution`, which supplies the base attribution, is a parameter. Evidence is a set; the source lists the same signals in alphabetical order.
- Signals, modes and expected tiers are types with one open constructor where the source accepts any string; domains are the eight the source lists, the only ones it looks up.
- Mutexes: every method of a class is one atomic step.
- Some loops the source writes inline are methods of their own here (`RankGroup`, `SumRanksOfX`, `Round`, `SelectCandidates`, `AddLogs`, `RankDomains`, `KeepHypotheses`), so that each has a contract.
- Probe.OnEnd: whether the ring buffer has room is an input of each event; how full it is after earlier records is not modelled.
- Manager.CheckOverhead: the reading of the overhead guard is an input.
- SeparatedVerdict: assumes an effect-size limit of at most 1; a larger limit can never be met, since delta is at most 1.
