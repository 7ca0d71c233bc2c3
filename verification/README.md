# Verification of metrique's core protocols

Dafny models of the parts of metrique whose correctness is hardest to see by reading, with
proofs of what they promise. `dafny verify dfyconfig.toml` checks all of it.

## What is modelled

**The pending sink** (`PendingProtocol`, `PendingGuarantees`, `PendingSink`). A sink that can
be used before the real one exists: `append` buffers into a drop-oldest ring, `resolve` sets
the slot, waits for the in-flight counter to reach zero and drains. Every atomic access is one
step of a transition system with any number of append calls; a schedule is any list of steps.
The invariant says that the counter is exactly the number of append calls between increment
and decrement, that the ring with what was evicted and drained is the push order, and that
each entry is in exactly one place. The class `PendingSink` makes the accesses in the order of
the code, and each of its methods is shown to be a schedule of that system. Between two
accesses of `append` anybody may run: other appends, `resolve`, and the drop of the resolver;
between two accesses of `resolve`, any appends. The spin loop of the method `Resolve` may turn
any finite number of times between two moves of the appends that hold it up; which schedules
are fair, and exactly when `resolve` has returned, is `PendingGuarantees.ResolveReturns`.

**Histograms** (`Bucketing`, `ExponentialHistogram`, `HistogramAccuracy`,
`HistogramStrategies`, `AtomicHistogram`, `SortAndMerge`). The bucket layout is that of
`histogram::Config::new(4, 32)` and `new(4, 64)` as documented and pinned by the repository:
`idx(v) = v` below 32, else `16 * (h - 4) + (v >> (h - 4))` with `h = floor(log2 v)`. Counts
are arrays updated in place; closing and inserting closed histograms is a fold over
observations. For the thread-safe strategy every addition to a bucket and every swap of a
bucket by a drain is one step.

**Keyed aggregation** (`KeyedAggregation`, `KeyedAggregator`, `ValueStrategies`). A table that
knows keys only by a precomputed hash and a match predicate, and rehashes from stored keys when
it grows, against a plain group-by of the arrival order. The drain order is arbitrary.

**Names** (`CaseConvert`, `CaseLetters`, `CaseStability`, `CaseIdempotence`, `CaseRoundTrip`,
`CasePrefix`, `Concat`, `Naming`, `NamingAgreement`, `NamingSpelledOut`, `NamingPrefix`,
`NamingScreaming`, `NamingSampleGroups`, `BinaryChain`). The two word-splitting
automata, the constant-string trees with their 100-byte fast path, and the two code-generation
paths of `#[metrics]` that must give the same names: `write`, through type-level name styles,
and `descriptors`, through per-style tables. `CaseLetters` says position by position, on code
points and neighbouring characters, what each style makes of a name; `NamingSpelledOut` spells
the resulting names out from the attributes of the structs.

**The OTel writer** (`OtelEntries`, `OtelMeaning`, `OtelWriter`). Pooled per-thread buffers with panics at any
write, inside a metric write, or at any record, and with appends made from inside a write.
`OtelEntries` says what an append is to record without mentioning buffers; `OtelWriter` proves
that the pooled writer records exactly that, whatever earlier appends left behind.

**The rate limiter** (`RateLimit`, `RateLimiter`). The load and compare-exchange on
`NEXT_CALL`, any number of threads, with the saturation of `Duration` and `u64`.

`CommonTypes` holds what several of them share. Every lemma carries `{:induction false}`: its
body is its proof, with recursive calls where it inducts.

Numbers are mathematical: `f64` is `real`, with the conversions to integers (truncation toward
zero, saturation) written out; `u64` bounds are explicit where the code saturates or depends on
them. Characters are ASCII. Atomic accesses are sequentially consistent.

## What the code does differently from its documentation or from what one might expect

- `rename_all = "SCREAMING_SNAKE_CASE"` is listed as supported (`metrique/README.md:387`), but
  on a struct the fields come out in snake_case, because the name style of a struct maps it to
  `NS::SnakeCase` (`metrique-macro/src/entry_impl.rs:43-45`). `NamingScreaming` proves that the
  two styles give the same names, and for which entries all names, prefixes included, are the
  ones asked for.
- One application of a case style need not be its fixed point: `AB1C` in snake case is `ab1c`,
  and that is `ab_1c`; `A_B` in PascalCase is `AB`, and that is `Ab`. Two applications always
  are (`CaseStability`), and `CaseIdempotence` has the exact condition on the name for one.
- Renderings of a word list convert into each other unless they come from PascalCase or
  camelCase and have words of one letter in certain places: `a`, `b` in PascalCase is `AB`, in
  snake case `ab`; but `ab`, `c` is `AbC`, in snake case `ab_c`. `CaseRoundTrip` has the exact
  condition.
- Sample groups are reported without the prefixes of flatten sites
  (`metrique-macro/src/entry_impl.rs:368-374`), so their names are those of the emitted fields
  exactly under the condition in `NamingSampleGroups`: behind the exact prefix `p_` the field
  `p_x` has its sample group under `x`.
- Root-level and flatten-level prefixes can disagree. In PascalCase `ab_` with `CDE` gives
  `AbCDE` and `AbCde`; in snake_case and kebab-case the prefix `_`, which is accepted on a
  struct, adds nothing there and a delimiter at a flatten site. `CasePrefix` has the exact
  condition.
- Values below 1/64 can lose more than the 6.25 percent the histogram documentation states, and
  values above 16/15 of the largest midpoint do. `HistogramAccuracy` has the exact set.
- Two calls let through by the rate limiter can be less than the interval apart, by less than a
  second; the interval is kept in full exactly when the previous time plus interval is a whole
  second (`RateLimit.HowMuchIsMissing`, `RateLimit.CallsCanBeClose`).
- Once `NEXT_CALL` reaches `u64::MAX` it no longer increases, and calls are let through all the
  same (`RateLimit.NextCallIncreases`, `RateLimit.LastSecondCallsTwice`).

## Model

| member | source | states |
|---|---|---|
| `PendingProtocol.EveryRunIsSafe` | metrique-util/src/pending_sink.rs:103-191 | The invariant (flags, counter = append calls between increment and decrement, ring in push order, every entry in exactly one place) holds after every schedule of any number of appends, `resolve` and drop |
| `PendingProtocol.RunKeepsInv` | metrique-util/src/pending_sink.rs:103-191 | Every continuation of a state that satisfies the invariant keeps it |
| `PendingProtocol.StepKeepsControl` | metrique-util/src/pending_sink.rs:111-128 | Each atomic access keeps `buffering` equal to the append calls between `fetch_add` and `fetch_sub`, and no one is about to push once the spin loop is past |
| `PendingProtocol.StepKeepsRing` | metrique-util/src/pending_sink.rs:126-180 | Each access keeps evicted, drained, handed-over and buffered entries, in that order, equal to the pushes, with exactly the excess over capacity evicted |
| `PendingProtocol.StepConserves` | metrique-util/src/pending_sink.rs:93-191 | Each access moves an entry between places without losing or doubling any |
| `PendingGuarantees.NoStrandedEntry` | metrique-util/src/pending_sink.rs:44-47 | Once the spin loop saw zero no later step pushes, and a resolved buffer is empty and stays empty |
| `PendingGuarantees.DeliveredOnceUnlessEvicted` | metrique-util/src/pending_sink.rs:103-180 | After a resolved run each entry was delivered once or evicted once, never both |
| `PendingGuarantees.ExactlyOnce` | metrique-util/src/pending_sink.rs:149-152 | With at most `capacity` pushes every started entry is delivered exactly once |
| `PendingGuarantees.DroppedDeliversNothing` | metrique-util/src/pending_sink.rs:185-191 | If the resolver is dropped nothing is ever delivered |
| `PendingGuarantees.BufferHoldsNewest` | metrique-util/src/pending_sink.rs:195-198 | Before the drain the buffer is the last `min(capacity, n)` of the `n` pushes in push order, the rest is evicted |
| `PendingGuarantees.DrainsNewestInOrder` | metrique-util/src/pending_sink.rs:175-180 | What `resolve` drains is those pushes in push order |
| `PendingGuarantees.EvictsOnlyWhenFull` | metrique-util/src/pending_sink.rs:195-198 | An eviction happens only when the buffer holds `capacity` entries |
| `PendingGuarantees.TurnsRunDown` | metrique-util/src/pending_sink.rs:103-129 | With the slot set, each turn of an append that read it as empty takes one access off its remaining ones, whatever else runs |
| `PendingGuarantees.NewcomersStayOut` | metrique-util/src/pending_sink.rs:105-107 | An append that starts after the slot was set never touches `buffering` |
| `PendingGuarantees.FairMakesQuiet` | metrique-util/src/pending_sink.rs:159-170 | No append holds up `buffering` any more exactly after the schedules in which each append that read the slot as empty got as many turns as it had accesses left |
| `PendingGuarantees.ResolveReturns` | metrique-util/src/pending_sink.rs:153-182 | After such a fair schedule `resolve` returns exactly when it has had as many turns as it has accesses left, at most `2 * capacity + 2`, however many appends arrive |
| `PendingSink.FairRunExists` | metrique-util/src/pending_sink.rs:103-129 | From every state with the slot set there is a fair schedule made only of accesses that somebody is there to take |
| `PendingSink.PendingSink.constructor` | metrique-util/src/pending_sink.rs:228-239 | A new sink is the initial state of the protocol |
| `PendingSink.PendingSink.Append` | metrique-util/src/pending_sink.rs:104-129 | `append`, with other appends, `resolve` and drop running in between, finishes as a schedule of the protocol, and its entry was pushed, forwarded or discarded, exactly one of the three and once |
| `PendingSink.PendingSink.LookAndGoOn` | metrique-util/src/pending_sink.rs:105-128 | From its first look at the slot an append ends with its entry pushed, forwarded or discarded; forwarded if the slot was set, discarded if the resolver was dropped |
| `PendingSink.PendingSink.AppendPending` | metrique-util/src/pending_sink.rs:108-128 | After the slot was read as empty: discarded exactly on the cancelled path, else pushed or forwarded, and forwarded if the slot was set meanwhile |
| `PendingSink.PendingSink.Buffer` | metrique-util/src/pending_sink.rs:112-128 | The second look decides: forwarded if the slot is set by then, pushed otherwise |
| `PendingSink.PendingSink.LeaveAndForward` | metrique-util/src/pending_sink.rs:114-119 | The second look found the sink: the count is released first and the entry is delivered, with anybody running in between |
| `PendingSink.PendingSink.PushAndLeave` | metrique-util/src/pending_sink.rs:122-128 | The second look found none: the entry is pushed and the count released after that, with anybody running in between |
| `PendingSink.PendingSink.ForcePush` | metrique-util/src/pending_sink.rs:126 | The push is the protocol's push step, dropping the oldest entry of a full buffer |
| `PendingSink.PendingSink.Resolve` | metrique-util/src/pending_sink.rs:153-182 | `resolve`, interleaved with appends, ends with an empty buffer, having drained the last `min(capacity, n)` of the `n` pushes in order; the spin loop may turn any finite number of times between two moves of its holders, and each such move lowers the summed remaining accesses |
| `PendingSink.PendingSink.Drain` | metrique-util/src/pending_sink.rs:175-180 | The pop loop hands the last `min(capacity, n)` pushes to the sink in push order and empties the buffer, which no append touches meanwhile |
| `PendingSink.OneFate` | metrique-util/src/pending_sink.rs:93-129 | After every schedule an append that holds its entry has not used it, and any other has pushed, forwarded or discarded it, exactly one of the three and once |
| `PendingSink.SecondLookFindsTheSink` | metrique-util/src/pending_sink.rs:112-121 | The race the second look is for happens: a run in which an append reads the slot as empty, `resolve` sets it, and the second look finds it set |
| `PendingSink.PendingSink.OthersPassBy` | metrique-util/src/pending_sink.rs:105-107 | With the slot set, other threads never raise the summed remaining accesses the spin loop waits for |
| `PendingSink.PendingSink.DropResolver` | metrique-util/src/pending_sink.rs:185-191 | Dropping the resolver is the protocol's cancellation step |
| `Bucketing.RangesPartition` | metrique-metricsrs/src/metrics_histogram.rs:10-16 | A value lies in the range of a bucket exactly when its index is that bucket |
| `Bucketing.IndexMonotone` | metrique-metricsrs/src/metrics_histogram.rs:10-16 | The index is monotone in the value |
| `Bucketing.BucketsCoverBits` | metrique-metricsrs/src/metrics_histogram.rs:36-38 | A value fits `n` bits exactly when its index is below the number of buckets for `n` bits |
| `Bucketing.BucketTotals` | metrique-metricsrs/src/metrics_histogram.rs:99-103 | That number is 464 for 32 bits and 976 for 64 |
| `Bucketing.MidpointStays` | metrique-aggregation/src/histogram.rs:403-406 | The midpoint of a bucket lies in the bucket |
| `Bucketing.MidpointsAgree` | metrique-metricsrs/src/metrics_histogram.rs:65-68 | `start + size / 2` is the same midpoint as `u64::midpoint` |
| `Bucketing.MidpointIsClose` | metrique-metricsrs/src/metrics_histogram.rs:12-13 | The midpoint is within v/32 of every value v of its bucket |
| `ExponentialHistogram.InRange` | metrique-aggregation/src/histogram.rs:382-384 | A value has one of the 976 buckets exactly when it fits 64 bits, so `add` is never refused |
| `ExponentialHistogram.ReportedStays` | metrique-aggregation/src/histogram.rs:386-411 | The value a bucket is reported as is counted in that bucket again |
| `ExponentialHistogram.ReportedAt` | metrique-aggregation/src/histogram.rs:400-412 | A closed histogram reports its non-empty buckets from the lowest to the highest, each with its count |
| `ExponentialHistogram.ReportedIs` | metrique-aggregation/src/histogram.rs:404-406 | A bucket is reported as its midpoint over 1024 |
| `ExponentialHistogram.RepeatedIs` | metrique-aggregation/src/histogram.rs:407-410 | The total of a report is that many times the value it reports |
| `ExponentialHistogram.ReplayAdds` | metrique-aggregation/src/histogram.rs:551-564 | Inserting a closed histogram adds its counts bucket by bucket |
| `ExponentialHistogram.CloseRoundTrip` | metrique-aggregation/src/histogram.rs:539-564 | Closing and inserting into an empty histogram gives the counts back |
| `ExponentialHistogram.MergeIsHomomorphism` | metrique-aggregation/src/histogram.rs:539-565 | For every tree of closes and inserts the counts are those of recording all original observations into one histogram |
| `ExponentialHistogram.OrderIsIrrelevant` | metrique-aggregation/src/histogram.rs:500-506 | The same recordings in any order give the same counts |
| `AtomicHistogram.NothingLostOrDoubled` | metrique-aggregation/src/histogram.rs:475-524 | In every interleaving of recorders with any number of drains, what is left in a bucket plus what the drains took from it is what was recorded there |
| `AtomicHistogram.EverythingIsTaken` | metrique-aggregation/src/histogram.rs:508-510 | Once the last addition is past and every bucket was swapped after it, by one drain or several, nothing is left and the drains have taken everything, for any layout |
| `AtomicHistogram.FullDrainSweeps` | metrique-aggregation/src/histogram.rs:508-510 | One drain that starts after the last addition and goes through all buckets does that |
| `AtomicHistogram.DrainsReportEverything` | metrique-aggregation/src/histogram.rs:508-524 | Merging the closed results of all drains then gives the histogram of everything recorded |
| `AtomicHistogram.DrainsCountEveryValue` | metrique-metricsrs/src/metrics_histogram.rs:41-55 | The 32-bit histogram: the drains have then taken from each bucket as many recordings as values were recorded in it |
| `HistogramAccuracy.AccurateInRange` | metrique-aggregation/src/histogram.rs:64-69 | Every real in [1/64, 2^54) is reported within 6.25 percent |
| `HistogramAccuracy.AccurateIff` | metrique-aggregation/src/histogram.rs:344-411 | Exactly which reals are reported within 6.25 percent |
| `HistogramAccuracy.SmallIsTruncated` | metrique-aggregation/src/histogram.rs:357-358 | Values below 1/64 are reported truncated to a multiple of 1/1024 |
| `HistogramAccuracy.LargeIsCapped` | metrique-aggregation/src/histogram.rs:577-590 | Values from 2^54 on are reported as the midpoint of the last bucket |
| `HistogramAccuracy.NegativeIsZero` | metrique-aggregation/src/histogram.rs:387-393 | Negative values are reported as zero |
| `HistogramAccuracy.NotAccurateBelow` | metrique-aggregation/src/histogram.rs:344-358 | 1/2048 is reported as zero |
| `HistogramStrategies.ExponentialStrategy.RecordMany` | metrique-aggregation/src/histogram.rs:387-393 | Adds the count to the value's bucket and changes no other |
| `HistogramStrategies.ExponentialStrategy.Drain` | metrique-aggregation/src/histogram.rs:395-413 | Reports every non-empty bucket in order and leaves all counts zero |
| `HistogramStrategies.ExponentialStrategy.Collect` | metrique-aggregation/src/histogram.rs:400-412 | The loop over a snapshot yields exactly its non-empty buckets |
| `HistogramStrategies.ExponentialStrategy.AddValue` | metrique-aggregation/src/histogram.rs:172-211 | Each observation of a value is recorded under its mean, empty ones are skipped |
| `HistogramStrategies.ExponentialStrategy.Merge` | metrique-aggregation/src/histogram.rs:544-565 | Closing a shard and inserting it adds the shard's counts and leaves the shard empty |
| `HistogramStrategies.Histogram32.Record` | metrique-metricsrs/src/metrics_histogram.rs:41-45 | A `u32` always has a bucket, whose count alone grows by one |
| `HistogramStrategies.Histogram32.RecordFloat` | metrique-metricsrs/src/metrics_histogram.rs:80-87 | Records a number that is the float without its fraction, 0 below zero and `u32::MAX` above the range |
| `HistogramStrategies.Histogram32.Drain` | metrique-metricsrs/src/metrics_histogram.rs:51-62 | Reports increasing bucket values, each with the number, modulo 2^32, of recorded values in that bucket, one within 1/32 of every recorded value, and leaves nothing recorded |
| `HistogramStrategies.ReportsAreFaithful` | metrique-metricsrs/src/metrics_histogram.rs:47-62 | What a drain reports of any recorded values: the counts per bucket modulo 2^32, and for each recorded value a report within 1/32 of it |
| `HistogramStrategies.WrapIs` | metrique-metricsrs/src/metrics_histogram.rs:58 | A reported count is the recorded one modulo 2^32 |
| `HistogramStrategies.Midpoint32` | metrique-metricsrs/src/metrics_histogram.rs:57 | The midpoint of each of the 464 buckets survives `as u32` |
| `HistogramStrategies.Accuracy32` | metrique-metricsrs/src/metrics_histogram.rs:150-174 | Every `u32` is reported within 1/32 of itself, exactly below 32 |
| `SortAndMerge.SortSorts` | metrique-aggregation/src/histogram.rs:443 | Sorting gives an ordered permutation |
| `SortAndMerge.DrainIsExact` | metrique-aggregation/src/histogram.rs:442-472 | Draining yields strictly increasing values, every recorded value among them, with its multiplicity (saturating at `u64::MAX`) |
| `SortAndMerge.ExpandRuns` | metrique-aggregation/src/histogram.rs:447-468 | Expanding the runs gives the sorted input back |
| `SortAndMerge.ReplayPreservesMultiset` | metrique-aggregation/src/histogram.rs:551-563 | Inserting the closed result appends exactly its values: the multisets add up |
| `SortAndMerge.CopiesCount` | metrique-aggregation/src/histogram.rs:437-440 | What `record_many` appends raises the multiplicity of the value by `count` and no other |
| `SortAndMerge.SortAndMergeStrategy.Drain` | metrique-aggregation/src/histogram.rs:442-472 | Returns the runs of the sorted values and leaves the strategy empty |
| `SortAndMerge.SortAndMergeStrategy.MergeSorted` | metrique-aggregation/src/histogram.rs:445-468 | The one-pass loop with `current_value` and `current_count` computes the runs |
| `SortAndMerge.SortAndMergeStrategy.AddValue` | metrique-aggregation/src/histogram.rs:184-199 | Raises the multiplicity of every value by what the observations say of it: one for each plain value equal to it, and the occurrences of each total of that many of it |
| `SortAndMerge.SortAndMergeStrategy.RecordMany` | metrique-aggregation/src/histogram.rs:437-440 | Raises the multiplicity of the value by `count` and of no other |
| `KeyedAggregation.FindsTheKey` | metrique-aggregation/src/aggregator.rs:71-79 | Under the `Key` laws the lookup by precomputed hash and borrowed key finds the key's slot, and misses exactly when there is none |
| `KeyedAggregation.Find` | metrique-aggregation/src/aggregator.rs:74-77 | The lookup stops at the first slot that has the hash and matches, and only misses when none does |
| `KeyedAggregation.MergedByKey` | metrique-aggregation/src/aggregator.rs:71-95 | One merge changes the accumulator of the source's key only, or adds one fresh slot for it |
| `ValueStrategies.FoldFront` | metrique-aggregation/src/aggregator.rs:93-108 | Pieces given by value go through `merge`, those by reference through `merge_ref`, the first one first |
| `KeyedAggregation.MergeRefinesGroupBy` | metrique-aggregation/src/aggregator.rs:93-108 | Merging into a table that is the group-by of what arrived gives the group-by including the new source, whether or not the table grows |
| `KeyedAggregation.HashLawIsNeeded` | metrique-aggregation/src/traits.rs:153-167 | With only the law on hashes broken, three merges leave two slots for one key |
| `KeyedAggregator.KeyedAggregator.constructor` | metrique-aggregation/src/aggregator.rs:58-64 | Starts with an empty table and an empty sink |
| `KeyedAggregator.KeyedAggregator.GetOrCreateAccum` | metrique-aggregation/src/aggregator.rs:66-85 | Returns the slot of the entry's key in the table that lookup or creation leaves |
| `KeyedAggregator.KeyedAggregator.Merge` | metrique-aggregation/src/aggregator.rs:93-96 | Keeps the table the group-by of what arrived, the new entry included |
| `KeyedAggregator.KeyedAggregator.MergeRef` | metrique-aggregation/src/aggregator.rs:105-108 | The same for an entry merged by reference |
| `KeyedAggregator.KeyedAggregator.Flush` | metrique-aggregation/src/aggregator.rs:116-124 | Appends to the sink one row per distinct key since the last flush, each the closed arrival-order fold, in any order, and leaves the table empty |
| `KeyedAggregator.NothingIsLost` | metrique-aggregation/src/aggregator.rs:93-124 | With `Sum`, emitted plus pending totals per key equal everything ever merged |
| `KeyedAggregator.GroupByConserves` | metrique-aggregation/src/aggregator.rs:116-124 | The rows of a group-by hold, under every closed key, what was merged under it |
| `ValueStrategies.MergeSums` | metrique-aggregation/src/value.rs:23-25 | Inserting values one by one with `Sum` adds their total to the accumulator |
| `ValueStrategies.MergeLasts` | metrique-aggregation/src/value.rs:34-36 | Inserting values one by one with `KeepLast` leaves the last one, or what was there if there is none |
| `ValueStrategies.MergePresent` | metrique-aggregation/src/value.rs:50-54 | Inserting optional values one by one leaves what the inner strategy makes of the present ones |
| `ValueStrategies.SumTotals` | metrique-aggregation/src/value.rs:17-26 | Any run of `Sum` inserts leaves the total |
| `ValueStrategies.FromNew` | metrique-aggregation/src/value.rs:17-88 | What each strategy makes of all values from its default accumulator: `Sum` starts at zero, `KeepLast` at none, the wrappers at the inner default |
| `ValueStrategies.KeepLastIsLast` | metrique-aggregation/src/value.rs:31-37 | Any run of `KeepLast` inserts leaves the last value, or the accumulator if there was none |
| `ValueStrategies.MergeOptionsSkipsNone` | metrique-aggregation/src/value.rs:44-55 | A run of optional inserts is the inner strategy's run over the present values |
| `ValueStrategies.FlattenFolds` | metrique-aggregation/src/value.rs:79-88 | A `Flatten` field folds nested sources with their own merge |
| `ValueStrategies.FieldOfGroup` | metrique-aggregation/src/traits.rs:207-215 | A field of an aggregated row is that field's strategy run, in arrival order, over the key's sources |
| `CaseConvert.RunDelimited` | metrique-core/src/case_convert.rs:132-159 | The loop with `pending_delim` and `prev` computes the delimited form, separators at both ends trimmed |
| `CaseConvert.RunCamelLike` | metrique-core/src/case_convert.rs:170-203 | The loop with `new_word` and `last_lowered` computes the camel-like form, separators at both ends trimmed |
| `CaseConvert.RunApplyPrefix` | metrique-core/src/case_convert.rs:82-104 | Adds the style's delimiter unless the result already ends with it |
| `CaseLetters.ApplyByPosition` | metrique-core/src/case_convert.rs:60-72 | Every style position by position of the name: which characters are kept, in which case, and where its delimiter goes, from code points and neighbouring characters alone |
| `CaseLetters.LettersAreKept` | metrique-core/src/case_convert.rs:119-124 | No style drops, adds, reorders or exchanges a letter or digit: the output's are those of the name, position by position, up to case |
| `CaseLetters.Recased` | metrique-core/src/case_convert.rs:119-124 | A letter keeps its identity, code points 32 apart at most, and gets the case asked for; anything else stays |
| `CaseLetters.FoldIsRecased` | metrique-core/src/case_convert.rs:114-124 | The case folding of the loops is that, and separators are all that is neither letter nor digit |
| `CaseLetters.DelimByPosition` | metrique-core/src/case_convert.rs:143-157 | `delimited`: a delimiter goes before a character after a separator, and before one that is not lowercase with a lowercase neighbour |
| `CaseLetters.HumpsByPosition` | metrique-core/src/case_convert.rs:180-201 | `camel_like`: in upper case are the letters after a non-letter, the first one in PascalCase, and any uppercase one once a lowercase letter stood inside a word |
| `CaseLetters.PrefixEnds` | metrique-core/src/case_convert.rs:82-104 | Which styles put which delimiter behind a prefix, and when |
| `CaseStability.EveryStyleSettles` | metrique-core/src/case_convert.rs:60-72 | Every style reaches a fixed point on every name after the stated number of applications |
| `CaseStability.LowerDelimitedSettlesInTwo` | metrique-core/src/case_convert.rs:67-69 | snake_case and kebab-case settle after two applications |
| `CaseStability.LowerDelimitedWithoutDigits` | metrique-core/src/case_convert.rs:143-157 | After one if the name has no digit |
| `CaseStability.UpperDelimitedSettlesInOne` | metrique-core/src/case_convert.rs:68-70 | Screaming styles settle after one application |
| `CaseStability.CamelLikeSettlesInTwo` | metrique-core/src/case_convert.rs:65-66 | PascalCase and camelCase settle after two applications |
| `CaseStability.CamelLikeOfAlphanumeric` | metrique-core/src/case_convert.rs:170-203 | After one if the name has no separator |
| `CaseStability.ScreamingKebabIsDelimited` | metrique-core/src/case_convert.rs:70 | Uppercasing the kebab-case form is the delimited form in upper case |
| `CaseIdempotence.IdempotentIff` | metrique-core/src/case_convert.rs:60-72 | For every style, exactly the names on which one application is a fixed point |
| `CaseIdempotence.LowerDelimitedIdempotentIff` | metrique-core/src/case_convert.rs:143-157 | snake_case and kebab-case: those without a digit that stays in its word at first but comes to touch a lowercased letter |
| `CaseIdempotence.CamelLikeIdempotentIff` | metrique-core/src/case_convert.rs:180-201 | PascalCase and camelCase: those in which no letter opens a word only because of a separator, before any letter was folded inside a word and not after a digit |
| `CaseIdempotence.DigitSplitLater` | metrique-core/src/case_convert.rs:147-152 | Names like `AB1C`, which change again |
| `CaseIdempotence.CapitalLostLater` | metrique-core/src/case_convert.rs:187-200 | Names like `A_B`, whose PascalCase form changes again |
| `CaseIdempotence.CapitalLostAfterDigit` | metrique-core/src/case_convert.rs:183-200 | Names like `1_A_B`, whose camelCase form changes again |
| `CaseRoundTrip.RenderingsConvertIff` | metrique-core/src/case_convert.rs:236-253 | For every list of lowercase words and every pair of the six styles, exactly when converting one rendering gives the other: always from a delimited one |
| `CaseRoundTrip.RenderingsConvert` | metrique-core/src/case_convert.rs:236-253 | Words of two letters or more always convert |
| `CaseRoundTrip.OneLetterWords` | metrique-core/src/case_convert.rs:170-203 | From PascalCase to snake_case the words `a`, `b` do not convert and the words `ab`, `c` do |
| `CasePrefix.PrefixLevelsAgree` | metrique-macro/src/lib.rs:1836-1859 | For a prefix ending with a delimiter, inflecting prefix and name together or apart agrees exactly under the stated condition |
| `CasePrefix.DelimitedPrefixesAgree` | metrique-core/src/case_convert.rs:82-97 | In delimited styles exactly when prefix and name each hold an alphanumeric character |
| `CasePrefix.PascalPrefixesAgree` | metrique-core/src/case_convert.rs:170-203 | In PascalCase except when the prefix leaves a lowercase letter behind and the name has an uppercase run |
| `CasePrefix.PrefixLevelsAgreeOnFieldNames` | metrique-macro/src/lib.rs:1836-1859 | In particular for every name without uppercase letters |
| `CasePrefix.PascalPrefixesCanDisagree` | metrique-macro/src/lib.rs:1843-1846 | Prefixes like `ab_` and names like `CDE` on which the two levels differ, with both results |
| `NamingPrefix.FirstUninflectable` | metrique-core/src/case_convert.rs:205-210 | The validation reports the first character that cannot be inflected, and nothing exactly if there is none |
| `NamingPrefix.AcceptedIff` | metrique-macro/src/lib.rs:1887-1928 | Exactly which inflectable prefixes are accepted at each level |
| `NamingPrefix.ParsedAs` | metrique-macro/src/lib.rs:1892-1927 | What each combination of the two attributes parses to, an exact prefix unchanged, and for which character or reason a prefix is rejected |
| `NamingPrefix.RootPrefixLikeFlattenPrefix` | metrique-macro/src/lib.rs:1838-1859 | For every accepted root prefix: it names a field like the same prefix at a flatten site exactly if it is an exact prefix or the stated condition holds |
| `NamingPrefix.DelimiterAlone` | metrique-macro/src/lib.rs:1843-1857 | A prefix of one delimiter is accepted on a struct and disagrees between the levels, for every name, in the delimited styles |
| `Concat.EveryArmEvaluates` | metrique-core/src/concat.rs:127-230 | Every arm of the match, of whatever length, evaluates without a panic, and to the concatenation exactly if its length is that of the children |
| `Concat.FillBuffer` | metrique-core/src/concat.rs:70-86 | The two loops compute that buffer |
| `Concat.ValidConcat` | metrique-core/src/concat.rs:99-102 | Concatenating valid UTF-8 gives valid UTF-8 |
| `Concat.EncodedIsCharacter` | metrique-core/src/concat.rs:99-102 | The encoding of every Unicode scalar value is accepted as a character of its length |
| `Concat.CharacterIsEncoded` | metrique-core/src/concat.rs:99-102 | And only those are: an accepted character is the encoding of a scalar value |
| `Concat.ExtendAppends` | metrique-core/src/concat.rs:116-125 | `extend` appends the tree's text, and `LEN` is exactly its number of bytes |
| `Concat.HaveValIffShort` | metrique-core/src/concat.rs:117-121 | An inner node has `HAVE_VAL` exactly when `LEN` is at most 100 |
| `Concat.NeverPanics` | metrique-core/src/concat.rs:96-103 | The arm a node selects never sees the zero-filled buffer and never panics, and gives the node's text wherever `HAVE_VAL` promises a value |
| `Concat.FastPathIsSlowPath` | metrique-core/src/concat.rs:237-245 | `const_str_value` is the extended text on either path |
| `Concat.ExtendInto` | metrique-core/src/concat.rs:106-125 | The in-place `extend` appends what the specification says |
| `Concat.RunConstStrValue` | metrique-core/src/concat.rs:237-245 | The imperative `const_str_value` gives the tree's text, and builds a string exactly for a concatenation of more than 100 bytes |
| `Concat.ShortIsBorrowed` | metrique-core/src/concat.rs:237-244 | The value is borrowed exactly for constants and concatenations of at most 100 bytes |
| `Naming.Write` | metrique-macro/src/entry_impl.rs:187-325 | The generated writes emit, field by field, the names of the specification |
| `NamingAgreement.WriteEmitsNames` | metrique-core/src/namestyle.rs:56-146 | Every emitted name is the prefixes of the flatten sites, each in the style of its site, then the styled name |
| `NamingAgreement.Describe` | metrique-macro/src/entry_impl/struct_impl.rs:108-211 | The descriptor segments report those names, with fields collected into runs and broken up by flatten children and `cfg` gates |
| `NamingAgreement.BuildChain` | metrique-macro/src/entry_impl.rs:452-479 | The chain lists the base segment and then the items in declaration order, gated ones left out |
| `NamingAgreement.FlattenSegments` | metrique-macro/src/entry_impl.rs:486-538 | A flatten site prepends its prefix, picked from the per-style table, to every name of the child |
| `NamingAgreement.Assemble` | metrique-macro/src/entry_impl/struct_impl.rs:249-262 | Run 0 and the chain items give the names of the plan |
| `NamingAgreement.PlanField` | metrique-macro/src/entry_impl/struct_impl.rs:153-179 | A plain field joins the open run, a gated one gets a run of its own |
| `NamingAgreement.PlanChild` | metrique-macro/src/entry_impl/struct_impl.rs:180-185 | A flatten field closes the run and adds its child |
| `NamingAgreement.PlanNext` | metrique-macro/src/entry_impl/struct_impl.rs:144-187 | Each field adds exactly its own names to the plan |
| `NamingAgreement.NamedPrepend` | metrique-writer-core/src/descriptor.rs:309-319 | Prepending a prefix to all names below a site is naming the child below that site |
| `NamingAgreement.WriteAgreesWithDescriptors` | metrique-macro/src/entry_impl/struct_impl.rs:97-107 | For every nested entry the emitted names equal, in order, the reported names |
| `NamingSpelledOut.SpelledOut` | metrique-macro/src/entry_impl.rs:187-325 | For plain fields behind any flatten sites, what `write` emits and `descriptors` reports: the prefixes of the sites, each in the style of its struct, then the explicit name as it stands or the inflected one with the struct's prefix, character for character, gated fields left out |
| `NamingSpelledOut.NamedSpelledOut` | metrique-macro/src/inflect.rs:69-85 | Explicit names are final; otherwise name and inflectable prefix are inflected together and an exact prefix stays as it is |
| `NamingSpelledOut.BytesSpell` | metrique-core/src/concat.rs:23-30 | The bytes of a name are its characters |
| `NamingScreaming.ScreamingIsSnake` | metrique-macro/src/entry_impl.rs:40-49 | `SCREAMING_SNAKE_CASE` on a struct names every field as `snake_case` does |
| `NamingScreaming.SnakeIsScreamingIff` | metrique-core/src/case_convert.rs:67-68 | The two styles agree on a name exactly when it has no letter |
| `NamingScreaming.ScreamingNameIff` | metrique-macro/src/inflect.rs:69-85 | A field gets the name its documented style asks for exactly if the name is explicit or nothing inflected has a letter |
| `NamingScreaming.ScreamingExample` | metrique-macro/src/entry_impl.rs:43-45 | The field `size` does not |
| `NamingScreaming.NamesAsDocumentedIff` | metrique-macro/src/entry_impl.rs:40-49 | All names of an entry tree, flatten prefixes included, are those its documented styles ask for exactly if nothing with a letter is inflected in `SCREAMING_SNAKE_CASE` |
| `NamingSampleGroups.SampleGroup` | metrique-macro/src/entry_impl/struct_impl.rs:83-95 | The iterators collected per field, put together as a balanced chain, yield the sample groups field by field |
| `NamingSampleGroups.GroupedAreSampled` | metrique-macro/src/entry_impl.rs:359-395 | Sample groups are named like the fields, styled but without any flatten prefix |
| `NamingSampleGroups.SampledAreNamed` | metrique-macro/src/entry_impl.rs:384-393 | With the prefixes they would be names that `write` emits |
| `NamingSampleGroups.SampleGroupNamesIff` | metrique-macro/src/entry_impl.rs:368-374 | Sample groups have the names of the emitted fields exactly if no flatten site whose prefix adds something has one below it |
| `NamingSampleGroups.PrefixIsDropped` | metrique-macro/src/entry_impl.rs:368-374 | Behind any non-empty exact prefix the two names of a field differ |
| `BinaryChain.ChainKeepsOrder` | metrique-macro/src/entry_impl.rs:327-342 | The balanced chain yields the elements of left-to-right concatenation |
| `BinaryChain.ChainIsBalanced` | metrique-macro/src/entry_impl.rs:336-341 | Its depth is at most `k` exactly for at most 2^k iterators |
| `OtelEntries.MetricIsRecorded` | metrique-otel/src/translator.rs:19-23 | Each metric is recorded once with its own name, kind, observations and unit, and its dimensions followed by all attributes of the entry, later ones included |
| `OtelEntries.AttributesAreTheTexts` | metrique-otel/src/translator.rs:198-206 | The attributes are exactly the text and list fields of the entry |
| `OtelMeaning.TagDecidesKind` | metrique-otel/src/translator.rs:221-241 | A metric with `OtelOptions` is recorded with the kind they give, a distribution as a histogram, each with its own contents and all attributes, after the records of later metrics |
| `OtelMeaning.OneRecordPerTag` | metrique-otel/src/translator.rs:221-228 | A completed append makes as many records as it has metrics with one of these flags, and none for the others |
| `OtelMeaning.AttributesInOrder` | metrique-otel/src/translator.rs:198-206 | The attributes are the text and list fields, each under its own name, in the order they are written |
| `OtelMeaning.ListIsCommaSeparated` | metrique-writer-core/src/value/mod.rs:149-166 | A list becomes its non-empty elements with commas between them |
| `OtelMeaning.UnwindsIff` | metrique-otel/src/translator.rs:118-128 | An append panics exactly at its own panic in the writes, at one of the records it makes, or with an append made from inside it |
| `OtelMeaning.WhatAPanicKeeps` | metrique-otel/src/translator.rs:141-175 | How many of an entry's records a panic leaves made, by where it comes |
| `OtelMeaning.NestedAreHeard` | metrique-otel/src/translator.rs:97-99 | Everything that appends made from inside an entry record is recorded, in order, and then the entry's own |
| `OtelEntries.Own` | metrique-otel/src/translator.rs:141-175 | What an append records of its own metrics is a prefix of what it records without panicking |
| `OtelEntries.QuietAppendIsOwn` | metrique-otel/src/translator.rs:118-128 | An undisturbed append records all its metrics and nothing else |
| `OtelWriter.WriterBufs.Reset` | metrique-otel/src/translator.rs:77-86 | Empties the per-append state and returns every leftover slot, emptied, to the pool |
| `OtelWriter.WriterBufs.TakeMetric` | metrique-otel/src/translator.rs:88-90 | Hands out an empty slot, creating one only if the pool is empty |
| `OtelWriter.WriterBufs.WriteValues` | metrique-otel/src/translator.rs:248-251 | A list becomes one attribute, its non-empty elements joined by commas |
| `OtelWriter.WriterBufs.WriteMetric` | metrique-otel/src/translator.rs:208-242 | A metric with an instrument kind becomes pending with its own contents; without one it is dropped and takes no slot; a panic in its iterators loses the slot |
| `OtelWriter.WriterBufs.WriteEntry` | metrique-otel/src/translator.rs:178-190 | The writes up to the end or a panic leave exactly the entry's metrics and attributes, appends made from inside included |
| `OtelWriter.WriterBufs.RecordLast` | metrique-otel/src/translator.rs:146-173 | The last pending metric is recorded with its dimensions followed by the entry attributes, and its slot goes back empty |
| `OtelWriter.WriterBufs.Finish` | metrique-otel/src/translator.rs:141-175 | Every pending metric is recorded, last one first, up to a record that panics |
| `OtelWriter.WriterBufs.Run` | metrique-otel/src/translator.rs:118-128 | What is recorded depends on the append alone; pooled slots stay empty, alive slots never exceed the widest append, each panic loses at most one, and without panics the slots created equal the widest append's metrics |
| `OtelWriter.Thread.AppendWithPool` | metrique-otel/src/translator.rs:100-116 | The same through the thread's buffers or, if they are borrowed or gone, through fresh ones |
| `RateLimit.EveryRunIsSpaced` | metrique-otel/src/rate_limit.rs:25-38 | In every run each call's second is at least that of the previous call's time plus interval |
| `RateLimit.NextCallIncreases` | metrique-otel/src/rate_limit.rs:27-34 | `NEXT_CALL` changes only by a call, and a call raises it exactly when it is below `u64::MAX` |
| `RateLimit.LastSecondCallsTwice` | metrique-otel/src/rate_limit.rs:27-34 | A run that reaches `u64::MAX` and makes another call there |
| `RateLimit.LosesOnlyToACall` | metrique-otel/src/rate_limit.rs:32-34 | A compare-exchange fails only if another call was made since the load; below the limit exactly then |
| `RateLimit.CallsAreApart` | metrique-otel/src/rate_limit.rs:25-38 | Any later call is at or after the second an earlier call's time plus interval fell in |
| `RateLimit.HowMuchIsMissing` | metrique-otel/src/rate_limit.rs:20-31 | When the full interval is guaranteed, and that less than a second of it is ever missing |
| `RateLimit.CallsCanBeClose` | metrique-otel/src/rate_limit.rs:25-38 | For every first call there is a run whose second call comes less than the interval later, exactly if the time plus interval is not a whole second |
| `RateLimit.BoundedCalls` | metrique-otel/src/rate_limit.rs:15-40 | Any span of T seconds sees at most T/I + 1 calls, for intervals of at least I seconds away from the limit |
| `RateLimit.LaterAddsUpToMax` | metrique-otel/src/rate_limit.rs:28-31 | `checked_add` with the fallback is the sum capped at the longest duration |
| `RateLimit.LongestDuration` | metrique-otel/src/rate_limit.rs:30 | The longest duration in nanoseconds |
| `RateLimiter.RateLimiter.LoadAndCheck` | metrique-otel/src/rate_limit.rs:26-27 | The load and the check are one step of the protocol |
| `RateLimiter.RateLimiter.CompareExchange` | metrique-otel/src/rate_limit.rs:28-37 | The compare-exchange is one step, which makes the call if it succeeds |
| `RateLimiter.RateLimiter.RateLimited` | metrique-otel/src/rate_limit.rs:15-40 | The macro body, interleaved with other threads, is a run of the protocol; it panics exactly for an interval below one second, a reported success is the last call made, and without one its second was not reached or another call was made meanwhile |
| `RateLimiter.RateLimiter.Race` | metrique-otel/src/rate_limit.rs:32-37 | After any steps of others since the load the exchange makes the call or is lost to another one |

## Left out

- Memory ordering: every atomic access is sequentially consistent.
- Floating-point rounding, NaN and infinities: `f64` is `real`, so the NaN filter of `SortAndMerge::drain` has nothing to filter.
- Overflow of bucket counts: counts are unbounded. The `as u32` of a reported 32-bit count is modelled, so a report is the count modulo 2^32.
- The thread-safe histograms as classes with several threads: `AtomicHistogram` has their steps on values, one addition or swap at a time, for both layouts; a drain's report of what it took is that of the sequential class.
- `HistogramStrategies.Histogram32.Drain`: nobody records while this method drains; recorders that race a drain are in `AtomicHistogram`.
- `SortAndMerge.ReplayPreservesMultiset`: assumes at most `u64::MAX` stored values, which a vector cannot exceed.
- `PendingSink.PendingSink.constructor`: requires a capacity above zero, because `new` panics on zero.
- Hash functions, probing and the growth policy of the hash table: any hash, any moment of growth; the table's order is arbitrary.
- Iterators that panic while the aggregator merges, and sinks that panic in `flush`.
- Slot capacities of the pooled OTel buffers, the instrument cache behind `record`, and the OTel SDK. A panic inside a record either follows the whole record or precedes it.
- Non-ASCII names: lower-casing can then expand to several characters.
- Enum entries and their tags, field flags, `flatten_entry`, timestamp names, units and shapes in descriptors.
- `flush_async`, `insert_and_send_to`, the values of sample groups, `BoxEntrySink` internals.
- Attribute parsing and error texts of the macro other than which prefixes are accepted.
- Clocks: the time a thread reads is an arbitrary input, not even monotone.
- Exporters, formatters, background queues, worker and mutex sinks, time-source guards, `Counter`, `State`: easy members or I/O.
