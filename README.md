# client_golang core, modelled in Dafny

This project models the statistical and bookkeeping core of the Prometheus Go
client library, client_golang, in its early form. It covers:

- **Accumulating buckets** (`prometheus/accumulating_bucket.go`). A bucket
  keeps up to `maximumSize` raw samples and evicts through an injected policy
  once it is full. Asked for an index, it sorts the retained values and reads
  the position `(count - 1) * index / observations`.
- **Tallying buckets** (`prometheus/tallying_bucket.go`). A bucket keeps only
  the count and the extrema. A pluggable estimator turns these into an answer:
  minimum, maximum, average of the extrema, or "uniform", which picks by the
  third of the observations the index falls in. Every estimator answers NaN for
  an empty bucket.
- **Distributions** (`prometheus/distributions.go`). `factorial` is an int64
  countdown loop. `binomialPDF` computes `n! / (k! (n-k)!) * p^k * (1-p)^(n-k)`.
- **Label-set signatures** (`model/signature.go` and `prometheus/signature.go`).
  The label names are sorted, and the pairs are fed to FNV-1a 64. The model
  package hashes each name followed by its value, or the values alone. The
  prometheus package hashes the text that `fmt.Fprintf(hasher, name, value)`
  writes.
- **Gauges** (`prometheus/gauge.go`). A table of values, one entry per label
  set, keyed by the label set's signature. `Set` either overwrites the value of
  an existing entry or files a new one. The new entry keeps a reference to the
  caller's label map. `ResetAll` empties every stored label map and then the
  table.
- **Extraction** (`extraction/metricfamilyprocessor.go`). This turns decoded
  `MetricFamily` messages into samples:
  - A counter or gauge family gives one sample per metric that has the field
    set.
  - A summary family gives one sample per quantile, then a `_sum` sample when
    the sample sum is set and a `_count` sample when the sample count is set.
  - Every sample gets the user labels, the metric name under `__name__`, and
    the options' timestamp.
  - `ProcessSingle` routes each family to its extractor. It stops at the first
    batch the ingester rejects.

## Representations

- A Go `float64` is a `real`. A NaN answer is `Option.None`.
- A Go string is a sequence of bytes (`GoStrings.Bytes`). A Go
  `map[string]string` is a Dafny `map`.
- Go's unordered map iteration is a nondeterministic choice (`:|`). Sorting
  the names makes the result independent of that order: a sorted permutation
  is unique.
- FNV-1a 64 is a left fold over the bytes. Its state is a `uint64` newtype,
  and the wrap-around of the multiplication is written out as `% 2^64`.
- Objects that the source mutates in place are classes:
  - the two kinds of bucket;
  - the gauge table, its entries, and the label maps it shares with callers.

  The pure computations are functions, and the loops are methods. Each method
  is proved against the function that specifies it.
- External behaviour becomes parameters:
  - the clock (`now`);
  - the eviction policy;
  - the ingester's answer (`accepts`);
  - `fmt.Sprint` of a float (`sprint`);
  - fmt's expansion of `%` verbs in a label name (`verbs`).

## Model

| member | source | states |
|---|---|---|
| Sorting.SortSortedPermutation | prometheus/accumulating_bucket.go:94 | sorting gives an ascending permutation of its input |
| Sorting.SortedUnique | model/signature.go:29 | two ascending arrangements of the same multiset are equal, so the sorted order is canonical |
| Sorting.SortDependsOnMultiset | model/signature.go:24-29 | the sorted result depends only on the multiset of the input, not on the order it was collected in |
| Sorting.InsertPermutes | prometheus/accumulating_bucket.go:94 | one insertion step adds exactly the inserted element |
| Sorting.InsertSorted | prometheus/accumulating_bucket.go:94 | inserting into an ascending sequence keeps it ascending |
| Sorting.RealLeTotalOrder | prometheus/accumulating_bucket.go:94 | sort.Float64s sorts by a total order on non-NaN floats |
| GoStrings.LexLeTotalOrder | model/signature.go:29 | Go's byte-wise string order is total, antisymmetric and transitive |
| GoStrings.LexLeTotal | model/signature.go:29 | any two strings are comparable |
| GoStrings.LexLeAntisymmetric | model/signature.go:29 | strings ordered both ways are equal |
| GoStrings.LexLeTransitive | model/signature.go:29 | the string order is transitive |
| LabelSets.CollectNames | model/signature.go:24-27 | the collecting loop lists every label name exactly once, whatever the visiting order |
| LabelSets.SortedLabelNames | model/signature.go:24-29 | collecting and then sorting gives the canonical ascending name list, and every listed name is in the map |
| LabelSets.SortedNamesCanonical | model/signature.go:24-29 | any enumeration of the names sorts to the same list |
| LabelSets.SortedNamesEnumerates | model/signature.go:29 | the canonical list holds each name once, in ascending order |
| LabelSets.SortedNamesOfEmpty | model/signature.go:20-22 | the empty map has no names |
| Fnv.WriteConcat | model/signature.go:33-36 | two successive hasher writes equal one write of the concatenation |
| Fnv.Sum64Empty | model/signature.go:15 | the hash of no bytes is the FNV-1a 64 offset basis 14695981039346656037 |
| Fnv.Sum64OfA | model/signature.go:31-38 | FNV-1a 64 of the byte "a" is 0xaf63dc4c8601ec8c, the published test vector |
| Fnv.XorLow | model/signature.go:34-35 | xoring in a byte leaves every bit above the low eight unchanged |
| ModelSignature.LabelsToSignature | model/signature.go:19-39 | the empty-map shortcut and the hashing loop both give FNV-1a over name-then-value for the names in ascending order, whatever the map's iteration order |
| ModelSignature.HashNamesAndValues | model/signature.go:31-38 | the loop's hasher ends at FNV-1a of the concatenated names and values |
| ModelSignature.PairStep | model/signature.go:33-36 | writing one name and then its value extends the hashed prefix by one pair |
| ModelSignature.LabelValuesToSignature | model/signature.go:43-62 | both paths give FNV-1a over the values alone, in ascending name order |
| ModelSignature.HashValues | model/signature.go:55-61 | the loop's hasher ends at FNV-1a of the concatenated values |
| ModelSignature.ValueStep | model/signature.go:57-59 | writing one value extends the hashed prefix by that value |
| ModelSignature.EmptySignatures | model/signature.go:15-22 | both signatures of the empty map equal the cached constant, the offset basis |
| ModelSignature.SortedNamesOfSingleton | model/signature.go:24-29 | a one-label map sorts to that one name |
| ModelSignature.NoSeparatorCollision | model/signature.go:33-36 | no separator is hashed, so {"ab": "c"} and {"a": "bc"} have the same signature |
| ModelSignature.ValueSignatureIgnoresNames | model/signature.go:43-62 | any two maps whose values agree position by position in ascending-name order have the same value signature, whatever their names |
| ModelSignature.ValuesOnlySeesValues | model/signature.go:57-59 | the bytes the values loop hashes depend only on the values met at each position, not on the names |
| ModelSignature.SingletonValueCollision | model/signature.go:43-62 | any two one-label maps with the same value share a value signature |
| PromSignature.LabelsToSignature | prometheus/signature.go:22-41 | both paths give FNV-1a over the Fprintf output for the names in ascending order, whatever the iteration order |
| PromSignature.HashChunks | prometheus/signature.go:34-40 | the Fprintf loop's hasher ends at FNV-1a of the concatenated chunks |
| PromSignature.HashStep | prometheus/signature.go:36-38 | one Fprintf call extends the hashed prefix by that name's chunk |
| PromSignature.EmptySignature | prometheus/signature.go:18-25 | the empty map's signature is the offset basis |
| PromSignature.FirstPercentEndsName | prometheus/signature.go:37 | in a chunk of a name without `%`, the first `%` is where the EXTRA framing starts |
| PromSignature.ChunkInjective | prometheus/signature.go:37 | for names without `%`, the Fprintf output determines both the name and the value |
| PromSignature.ChunksAppend | prometheus/signature.go:34-40 | each name contributes one chunk (the name, its value or "" when missing, in the EXTRA framing), in order: the text hashed for a + b is that for a followed by that for b |
| PromSignature.ExtraSpelling | prometheus/signature.go:37 | the framing bytes spell `%!(EXTRA string=` and `)` |
| PromSignature.FramingSeparatesPairs | prometheus/signature.go:37 | the EXTRA framing keeps {"ab": "c"} and {"a": "bc"} apart |
| AccumulatingBuckets.EvictRemovesOne | prometheus/accumulating_bucket.go:54-56 | the policy's eviction removes exactly one item from a full queue and keeps the rest |
| AccumulatingBuckets.Values | prometheus/accumulating_bucket.go:90-92 | the copied values are the items' values, position by position |
| AccumulatingBuckets.TargetInRange | prometheus/accumulating_bucket.go:99-101 | for 0 <= index <= observations, the truncated target is a valid position in the sorted values |
| AccumulatingBuckets.ValueAtMeaning | prometheus/accumulating_bucket.go:78-102 | the answer is NaN exactly for an empty bucket; otherwise it is the target element of any ascending arrangement of the retained values, so it is one of them |
| AccumulatingBuckets.CopyValues | prometheus/accumulating_bucket.go:88-92 | the copy loop fills a fresh array with the retained values in order |
| AccumulatingBuckets.AccumulatingBucket.constructor | prometheus/accumulating_bucket.go:30-38 | a new bucket is empty, has no observations, and keeps the policy and capacity |
| AccumulatingBuckets.AccumulatingBucket.Add | prometheus/accumulating_bucket.go:42-59 | counts the observation; a full queue first loses one item to the policy; the new item is pushed with the negated clock as priority; capacity is kept |
| AccumulatingBuckets.AccumulatingBucket.ValueForIndex | prometheus/accumulating_bucket.go:78-102 | the answer is ValueAt of the retained values: NaN when empty, otherwise the target element of the sorted copy |
| AccumulatingBuckets.AccumulatingBucket.Observations | prometheus/accumulating_bucket.go:104-109 | returns the observation count |
| AccumulatingBuckets.AccumulatingBucket.Reset | prometheus/accumulating_bucket.go:111-120 | as written: keeps the bucket valid, keeps floor(n/2) of the n queued items (the first half in the model's push order) and zeroes the count |
| AccumulatingBuckets.AccumulatingBucket.ResetCorrected | prometheus/accumulating_bucket.go:111-120 | as intended: empties the queue and zeroes the count |
| AccumulatingBuckets.FillPastCapacity | prometheus/accumulating_bucket.go:42-59 | with any policy that evicts one item, every added value is counted, and min(count, maximumSize) values are retained |
| AccumulatingBuckets.ResetLeavesSamples | prometheus/accumulating_bucket.go:111-120 | after two adds and Reset as written, one sample remains while the count reads zero |
| AccumulatingBuckets.ResetCorrectedAnswersNaN | prometheus/accumulating_bucket.go:84-86 | after the intended reset, ValueForIndex answers NaN |
| TallyingBuckets.FloatLimitsOrdered | prometheus/tallying_bucket.go:132-134 | helper about the sentinels TallyingBucket.Reset restores (not a model of those lines): 0 < SmallestNonzeroFloat64 < 1 < MaxFloat64 |
| TallyingBuckets.Min | prometheus/tallying_bucket.go:97 | math.Min is the smaller argument |
| TallyingBuckets.Max | prometheus/tallying_bucket.go:98 | math.Max is the larger argument |
| TallyingBuckets.Midpoint | prometheus/tallying_bucket.go:46-48 | the average of the extrema lies between them, equally far from each |
| TallyingBuckets.EmptyFilter | prometheus/tallying_bucket.go:27-35 | the filtered estimator answers NaN with no observations, and otherwise exactly what the wrapped estimator answers |
| TallyingBuckets.CannedEstimators | prometheus/tallying_bucket.go:37-65 | each canned estimator (MinimumOf, MaximumOf, AverageOf, UniformOf behind the empty filter) is NaN iff there are no observations; otherwise minimum, maximum and the average of the extrema; uniform with one observation gives the minimum for any index |
| TallyingBuckets.UniformThirds | prometheus/tallying_bucket.go:50-64 | with more than one observation, the location index/observations is above two thirds exactly when 3·index > 2·observations (maximum) and below one third exactly when 3·index < observations (minimum); otherwise the average |
| TallyingBuckets.UniformNegativeCounts | prometheus/tallying_bucket.go:54-60 | a negative count flips the sign of the location as float division does: index 1 of -3 and index 0 of -1 give the minimum, index -4 of -3 the maximum |
| TallyingBuckets.QuotientAbove | prometheus/tallying_bucket.go:55-57 | helper for UniformThirds: a location index/observations exceeds a threshold exactly when index exceeds the threshold times observations |
| TallyingBuckets.QuotientBelow | prometheus/tallying_bucket.go:59-60 | helper for UniformThirds: a location is below a threshold exactly when index is below the threshold times observations |
| TallyingBuckets.UniformOverThree | prometheus/tallying_bucket.go:50-64 | over [0, 100] with 3 observations, indices 0..3 give 0, 50, 50, 100; one observation gives the minimum |
| TallyingBuckets.SmallestIsMinimum | prometheus/tallying_bucket.go:96-98 | the tallied minimum is at most every added value, and is one of them or the MaxFloat64 start |
| TallyingBuckets.LargestIsMaximum | prometheus/tallying_bucket.go:96-98 | the tallied maximum is at least every added value, and is one of them or the SmallestNonzeroFloat64 start |
| TallyingBuckets.ExtremaOrdered | prometheus/tallying_bucket.go:96-98 | once something was added, minimum <= maximum |
| TallyingBuckets.TallyingBucket.Default | prometheus/tallying_bucket.go:138-144 | an empty bucket with the minimum estimator and the starting extrema |
| TallyingBuckets.TallyingBucket.Custom | prometheus/tallying_bucket.go:146-152 | an empty bucket with the given estimator and the starting extrema |
| TallyingBuckets.TallyingBucket.Add | prometheus/tallying_bucket.go:92-99 | counts the value and widens the extrema with math.Min and math.Max; the invariant ties them to all values added |
| TallyingBuckets.TallyingBucket.Observations | prometheus/tallying_bucket.go:114-119 | the count is the number of values added since the last reset |
| TallyingBuckets.TallyingBucket.ValueForIndex | prometheus/tallying_bucket.go:121-126 | the estimator applied to minimum, maximum, index and count |
| TallyingBuckets.TallyingBucket.Reset | prometheus/tallying_bucket.go:128-135 | count zero, extrema back to their starting values |
| TallyingBuckets.ValidBucketOrdered | prometheus/tallying_bucket.go:84-99 | a bucket holding observations has minimum <= maximum |
| TallyingBuckets.MinimumThenReset | prometheus/tallying_bucket.go:121-135 | a default bucket reports the least added value for any index, and NaN after Reset |
| Distributions.Fact | prometheus/distributions.go:14-26 | factorial is at least 1 |
| Distributions.Factorial | prometheus/distributions.go:14-26 | the countdown loop computes of! (1 for of <= 0) and stays within int64 |
| Distributions.FallingTimesFact | prometheus/distributions.go:21-23 | what the countdown has multiplied in down to i, times i!, is of! |
| Distributions.FactorialFitsInt64 | prometheus/distributions.go:19-23 | no int64 overflow for of <= 20 |
| Distributions.FactorialFitsInt64Exactly | prometheus/distributions.go:14-26 | for of >= 0, of! fits in an int64 exactly when of <= 20 |
| Distributions.FactMonotone | prometheus/distributions.go:14-26 | factorial does not decrease |
| Distributions.FactTwenty | prometheus/distributions.go:19-23 | 20! fits int64 and 21! does not |
| Distributions.ChooseTimesFactorials | prometheus/distributions.go:32 | n! = C(n, k) * k! * (n-k)!, so the division in binomialPDF is exact |
| Distributions.ChoosePositive | prometheus/distributions.go:32 | the binomial coefficient is at least 1 |
| Distributions.CoefficientIsChoose | prometheus/distributions.go:32 | the computed coefficient is the integer C(n, k) >= 1 |
| Distributions.DenominatorFitsInt64 | prometheus/distributions.go:32 | whenever n! fits in an int64, so does the product k! (n-k)! the coefficient divides by |
| Distributions.PowNonNegative | prometheus/distributions.go:33 | a power of a non-negative base is non-negative |
| Distributions.RunProbabilityNonNegative | prometheus/distributions.go:33 | for p in [0, 1], p^k (1-p)^(n-k) is non-negative |
| Distributions.RunProbabilitySymmetric | prometheus/distributions.go:33 | p^k (1-p)^(n-k) is unchanged when k becomes n - k and p becomes 1 - p |
| Distributions.BinomialPDFIsBinomial | prometheus/distributions.go:31-36 | where n! fits in an int64 (n <= 20), binomialPDF is C(n, k) p^k (1-p)^(n-k) |
| Distributions.BinomialPDFNonNegative | prometheus/distributions.go:31-36 | where n! fits in an int64, binomialPDF is non-negative for p in [0, 1] |
| Distributions.CoefficientSymmetric | prometheus/distributions.go:32 | the coefficient for k equals the one for n - k |
| Distributions.BinomialPDFNoTrials | prometheus/distributions.go:31-36 | zero successes in zero trials has probability 1 |
| Distributions.BinomialPDFSymmetric | prometheus/distributions.go:31-36 | where n! fits in an int64, k successes at p has the probability of n - k successes at 1 - p |
| Gauges.Labels.constructor | prometheus/gauge.go:53-55 | a label map holding the given entries |
| Gauges.Labels.Clear | prometheus/gauge.go:76-78 | deleting every name leaves the map empty |
| Gauges.GaugeVector.constructor | prometheus/gauge.go:62-65 | an entry holding the given label map and value |
| Gauges.Gauge.constructor | prometheus/gauge.go:29-33 | NewGauge: an empty table |
| Gauges.Gauge.Set | prometheus/gauge.go:49-69 | returns the value; files it under the signature of the labels (nil counts as empty); an existing entry keeps its label map; a new entry keeps the caller's map or a fresh empty one; other entries are unchanged |
| Gauges.Gauge.Store | prometheus/gauge.go:59-66 | the lookup-or-insert: exactly the key is added if missing, and only its value changes |
| Gauges.Gauge.ResetAll | prometheus/gauge.go:71-81 | every stored label map is emptied and the table is left empty |
| Gauges.SetTwice | prometheus/gauge.go:49-69 | setting one label set twice through two maps leaves one entry, with the second value and the first map |
| Gauges.ResetAllEmptiesCallerMap | prometheus/gauge.go:71-81 | ResetAll also empties the map the caller passed to Set |
| Extraction.DistinctLabelNames | extraction/metricfamilyprocessor.go:143-145 | "quantile" and "__name__" differ, so neither overrides the other |
| Extraction.UserLabelsKeys | extraction/metricfamilyprocessor.go:84-86 | the copied labels have exactly the names of the label pairs |
| Extraction.UserLabelsLastWins | extraction/metricfamilyprocessor.go:84-86 | a name's copied value is that of its last pair |
| Extraction.CopyLabels | extraction/metricfamilyprocessor.go:84-86 | the copy loop builds UserLabels, the pairs written in order |
| Extraction.ScalarSamplesAppend | extraction/metricfamilyprocessor.go:72-91 | the batch of concatenated metric lists is the concatenation of their batches |
| Extraction.ScalarSamplesOfOne | extraction/metricfamilyprocessor.go:72-91 | a metric without the field gives no sample; with it, one sample holding the value (0 if unset), the timestamp, the user labels and the family name under `__name__` |
| Extraction.ScalarSamplesShape | extraction/metricfamilyprocessor.go:77-90 | no more samples than metrics; each has the timestamp and the family name under `__name__` |
| Extraction.ExtractCounter | extraction/metricfamilyprocessor.go:69-94 | the loop builds the counter batch ScalarSamples(COUNTER) |
| Extraction.ExtractGauge | extraction/metricfamilyprocessor.go:96-121 | the loop builds the gauge batch ScalarSamples(GAUGE) |
| Extraction.QuantileSamplesMeaning | extraction/metricfamilyprocessor.go:131-148 | one sample per quantile, in order; sample j has quantile j's value, the timestamp, and labels user + formatted quantile + name |
| Extraction.QuantileLabelWins | extraction/metricfamilyprocessor.go:139-145 | a quantile sample's "quantile" label is the formatted quantile and its `__name__` is the family name, whatever the user labels say |
| Extraction.SummaryOfLayout | extraction/metricfamilyprocessor.go:131-174 | a summary gives its quantile samples, then `name_sum` if the sum is set, then `name_count` if the count is set |
| Extraction.SummarySamplesAppend | extraction/metricfamilyprocessor.go:126-175 | the summary batch of concatenated metric lists is the concatenation of their batches |
| Extraction.ExtractSummary | extraction/metricfamilyprocessor.go:123-178 | the loop builds SummarySamples over the metrics that have a summary |
| Extraction.ExtractSummaryMetric | extraction/metricfamilyprocessor.go:131-174 | the per-metric body builds SummaryOf |
| Extraction.ExtractQuantiles | extraction/metricfamilyprocessor.go:131-148 | the quantile loop builds QuantileSamples |
| Extraction.UntypedSkipped | extraction/metricfamilyprocessor.go:50-63 | a family of a type no case handles adds no batch |
| Extraction.ProcessSingle | extraction/metricfamilyprocessor.go:36-67 | the ingested batches are a prefix of the families' batches; all but the last were accepted; an error is returned exactly when the last was rejected; with no error every batch was ingested |
| Extraction.Route | extraction/metricfamilyprocessor.go:50-63 | the switch on the family's type gives Batch: the counter, gauge or summary extractor's batch, and nothing for any other type |
| Extraction.BatchesAppend | extraction/metricfamilyprocessor.go:39-64 | the batches of a stream a + b are those of a followed by those of b (Batch routes one family, Batches a stream) |
| Extraction.BatchesPrefix | extraction/metricfamilyprocessor.go:39-64 | the batches of a prefix of the stream are a prefix of the stream's batches |

## Left out

- Locks: the mutexes are not modelled. Neither is the `Lock` paired with a
  deferred `RUnlock` in prometheus/accumulating_bucket.go:112-113.
- Float rounding, NaN inputs and signed zero: every float is an exact real.
  NaN appears only as an answer (`None`).
- TallyingBuckets.UniformOf divides index by observations exactly and
  compares the location with the exact thirds. Go rounds the location and the
  thirds to float64. Rounding is monotone, so a location can round onto a
  third, which flips a strict comparison, but never past it. Index 2 of 3 lies
  exactly on the upper third in both, so it gives the average, and the model
  does the same. With no observations the model follows the float division
  (+Inf, -Inf, or NaN for index 0); the empty filter never lets that case
  through.
- AccumulatingBuckets.TargetIndex truncates the exact
  (count - 1) · index / observations. Go multiplies `float64(count-1)` by the
  rounded quotient `float64(index) / float64(observations)`
  (prometheus/accumulating_bucket.go:99), which can land just below an
  integer: with 101 retained values, 200 observations and index 114, Go
  computes 100 × 0.57 = 56.99999999999999 and reads position 56, where the
  model reads position 57.
- String and MarshalJSON are not modelled. They only format values.
  `tallyingBucketBuilder` is a builder that returns a pointer to
  `DefaultTallyingBucket()`; the bucket it builds is
  TallyingBuckets.TallyingBucket.Default.
- The priority queue's heap order is not modelled. Go's `heap.Push` sifts the
  new item up; the model's push appends it, the model's `Pop` removes the last
  item, and the policy names the item to evict. Which items Reset keeps
  therefore follows the model's order, but how many it keeps, floor(n/2), does
  not depend on the order. The concrete
  eviction policies and reducers (AverageReducer and the rest) are not part of
  this model: the policy is a parameter, and the average of two extrema is
  written out.
- The clock `time.Now()` is the `now` parameter of Add.
- AccumulatingBuckets.AccumulatingBucket.constructor requires maximumSize >= 1.
  With 0, Go would call the policy on an empty queue.
- AccumulatingBuckets.AccumulatingBucket.ValueForIndex requires what the Go
  code needs to avoid a panic: observations > 0 and an in-range target for a
  non-empty queue.
- Distributions.Factorial requires of <= 20. Beyond that Go's int64
  accumulator wraps, and that wrap is not modelled.
- Distributions.BinomialPDF requires 0 <= k <= n and that n! fits in an int64,
  which holds exactly for n <= 20 (FactorialFitsInt64Exactly). From n = 21 on,
  Go's int64 factorials wrap around and the coefficient is meaningless (about
  -1.75 for k = 1 and n = 21); that wrap is not modelled. Arguments outside
  0 <= k <= n give negative factorial arguments, which Go maps to 1.
- Gauges.Gauge.Set keys the table by a `Key` wrapping the uint64 signature.
  The Go struct declares `map[string]*gaugeVector` and indexes it with that
  uint64. The model keeps the intended signature key.
- The `%` verbs fmt expands in a label name used as a format string are the
  `verbs` parameter. `fmt.Sprint` of a quantile is the `sprint` parameter.
- Extraction.ProcessSingle works on an already decoded sequence of families.
  Not modelled:
  - length-delimited protobuf decoding;
  - `io.EOF` and other read errors;
  - the state the ingester keeps between calls.

  It requires every family to carry a type, because Go dereferences
  `*family.Type` and panics on nil.
- The spelling `__name__` of `model.MetricNameLabel` is taken as given: the
  model package's label-name constants are not part of this model. The
  `quantile` label is the source's own literal `model.LabelName("quantile")`
  (extraction/metricfamilyprocessor.go:143). Only
  Extraction.DistinctLabelNames depends on the two spellings.
- A summary's uint64 sample count becomes a float exactly (`as real`). Rounding
  above 2^53 is not modelled.

## Findings

| source | as written | input that shows it | evidently intended | confidence | as-written member | corrected member |
|---|---|---|---|---|---|---|
| prometheus/accumulating_bucket.go:115-117 | the loop compares a rising counter with the shrinking `Len()`, so it pops only ceil(n/2) of n items while `observations` is set to 0 | add two values, then Reset: one value remains with observations == 0, so ValueForIndex would divide by zero at line 99; this is observable once the `Lock`/deferred `RUnlock` pairing at lines 112-113 is corrected (as written, Reset does not return normally; the locks are not modelled, see Left out) | remove every retained item | high (proved in the model; not executed) | AccumulatingBuckets.ResetLeavesSamples | AccumulatingBuckets.ResetCorrectedAnswersNaN |
