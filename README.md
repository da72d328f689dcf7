# Broadcaster statistics aggregation, modelled in Dafny

This project models the core of the broadcaster statistics engine (`broadcasterdb`).
The engine turns each channel's stored hourly samples into one gap-filled time series
covering every requested channel, at hourly or daily resolution. It also models the UTC
time-flooring helpers the engine depends on. There are six modules:

- `Wrappers` (`wrappers.dfy`) defines `Option` and `Result`.
- `Resolutions` (`resolutions.dfy`) defines the resolution codes `Hours` and `Days` and
  the `ResolutionNames` table.
- `TimeRound` (`time_round.dfy`) defines `DayFloor`, `HourFloor` and `MonthFloor` over
  epoch seconds in UTC. Each one splits an instant into a proleptic Gregorian civil date
  and a time of day, then rebuilds the floor from some of those fields, as `t.Date()`
  followed by `time.Date(...)` does.
- `Aggregates` (`aggregates.dfy`) covers the accumulators, the metric registry and the
  bucketing of timestamps:
  - The three accumulator variants (sum, max, fraction) are the datatype `Acc`, with
    their merge and their report.
  - The pointer-receiver `Aggregate` is the class `Metric`.
  - The registry `metricAggregates` maps a metric name to a `Rule`.
  - `aggrAvgConcurrents`, `AggregateMetricFun` and `aggrTimes` are loops that append to
    their output.
- `RowMaps` (`row_maps.dfy`) models `queryDataAsRowMap`:
  - The four stored columns of each monthly row are decoded by an abstract decoder.
  - The working map of slots (a nil slot is `None`) is grown in place: row by row, then
    metric by metric, then sample by sample.
  - The result is proved equal to `RowMapSpec`, a declarative row-map:
    - its keys are the union of the rows' bucket keys;
    - slot `i` of bucket `b` is the merge of metric `i`'s accumulators for the samples
      keyed `b`.
- `Stats` (`stats.go`'s logic, in `stats.dfy`) models the time axis and the dense matrix:
  - `buildTimes` is proved against `TimeAxis`.
  - `denseMultichannelStats` works on an `array<RowMap>` and fills an `array2<real>`. Its
    result is proved against `DenseRow`. Its side effect on the first row-map holding
    each time is proved against `AfterDense`.
  - The sequential part of `GetStats` is a fold over per-channel results taken in
    arrival order.

Several properties are proved about these specification functions:

- merges are commutative and associative;
- a run of accumulators merges to the same result in any order;
- a matrix row does not depend on the order of the row-maps;
- a time no map has gives a zero-filled row;
- the axis is strictly ascending;
- each of the three floors is bounded, aligned, idempotent and monotone.

## Model

| member | source | states |
|---|---|---|
| Resolutions.ResolutionNamesSupported | broadcasterdb/stats.go:8-19 | only "hour" and "day" are named; they name `Hours` and `Days`, the only supported resolutions |
| TimeRound.CivilFromDays | common/time_round.go:55 | the civil date of a day number is a valid date whose day number is that number |
| TimeRound.CivilRoundTrip | common/time_round.go:55-56 | decomposing the day number of any valid date gives that date back |
| TimeRound.DateOfUnix | common/time_round.go:55-56 | the civil date of the instant `time.Date(y, m, d, hh, mm, ss)` is `y-m-d`, and its day index is that date's day number |
| TimeRound.DayFloor | common/time_round.go:54-57 | result ≤ t < result + 86400, and the result is a multiple of 86400 |
| TimeRound.HourFloor | common/time_round.go:59-62 | result ≤ t < result + 3600, and the result is a multiple of 3600 |
| TimeRound.MonthFloor | common/time_round.go:49-52 | the result is a midnight ≤ t; its date is day 1 of t's UTC year and month; t is less than that month's length after it |
| TimeRound.DayFloorIdempotent | common/time_round_test.go:43-50 | flooring twice equals flooring once; an instant already at midnight floors to itself |
| TimeRound.DayFloorClosedForm | common/time_round.go:54-57 | the day floor is t minus t's offset into its UTC day |
| TimeRound.DayFloorOfFirstDay | broadcasterdb/aggregates_test.go:50-55 | every instant of 1970-01-01 UTC (0, 3600 and 43200 among them) floors to 0 |
| TimeRound.DayFloorMonotone | common/time_round.go:54-57 | t1 ≤ t2 implies DayFloor(t1) ≤ DayFloor(t2) |
| TimeRound.HourFloorMonotone | common/time_round.go:59-62 | t1 ≤ t2 implies HourFloor(t1) ≤ HourFloor(t2) |
| TimeRound.HourFloorIdempotent | common/time_round.go:59-62 | flooring to the hour twice equals flooring once; an instant already on the hour floors to itself |
| TimeRound.MonthFloorIdempotent | common/time_round.go:49-52 | flooring to the month twice equals flooring once |
| TimeRound.MonthFloorMonotone | common/time_round.go:49-52 | t1 ≤ t2 implies MonthFloor(t1) ≤ MonthFloor(t2) |
| TimeRound.DayFloorOfCivil | common/time_round_test.go:43-50 | for every valid date and clock time, the floor of `y-m-d hh:mm:ss` is `y-m-d 00:00:00` |
| TimeRound.HourFloorOfCivil | common/time_round_test.go:51-58 | for every valid date and clock time, the floor of `y-m-d hh:mm:ss` is `y-m-d hh:00:00` |
| TimeRound.MonthFloorOfCivil | common/time_round_test.go:35-42 | for every valid date and clock time, the floor of `y-m-d hh:mm:ss` is `y-m-01 00:00:00` |
| TimeRound.May2014 | common/time_round_test.go:38-39 | 2014-05-01 00:00:00 UTC is epoch second 1398902400 |
| Aggregates.Acc.Summarize | broadcasterdb/aggregates.go:22-50 | a sum reports its total and a max its peak; a fraction with a nonzero denominator reports r with r × denom = num |
| Aggregates.Merge | broadcasterdb/aggregates.go:17-46 | merging keeps the variant; sums add; a max is ≥ both inputs and equal to one of them; fractions add numerators and denominators separately |
| Aggregates.MergeCommutative | broadcasterdb/aggregates.go:17-46 | Merge(a, b) = Merge(b, a) for accumulators of one variant |
| Aggregates.MergeAssociative | broadcasterdb/aggregates.go:17-46 | Merge(Merge(a, b), c) = Merge(a, Merge(b, c)) for accumulators of one variant |
| Aggregates.Metric.constructor | broadcasterdb/aggregates.go:52-60 | a new metric holds the given accumulator |
| Aggregates.Metric.Aggregate | broadcasterdb/aggregates.go:17-46 | the receiver becomes the merge of its old value with the argument's old value; the argument is unchanged unless it is the receiver |
| Aggregates.NewSumMetric | broadcasterdb/aggregates.go:57-60 | a sum accumulator that reports f |
| Aggregates.NewMaxMetric | broadcasterdb/aggregates.go:52-55 | a max accumulator that reports f |
| Aggregates.MergeAllSum | broadcasterdb/aggregates.go:17-24 | merging a run of sums reports the sum of their totals |
| Aggregates.MergeAllFraction | broadcasterdb/aggregates.go:42-50 | merging a run of fractions gives the sum of the numerators over the sum of the denominators |
| Aggregates.MergeAllMax | broadcasterdb/aggregates.go:28-35 | merging a run of maxima gives a peak ≥ every peak in the run and equal to one of them |
| Aggregates.MergeAllPermutation | broadcasterdb/stats.go:99-106 | two runs holding the same accumulators in any order merge to the same accumulator |
| Aggregates.Make | broadcasterdb/aggregates.go:52-60 | the maker's accumulator has the maker's variant and reports f |
| Aggregates.RuleValues | broadcasterdb/aggregates.go:62-89 | a rule yields one accumulator per "hours" entry, all of the rule's variant |
| Aggregates.AggrAvgConcurrents | broadcasterdb/aggregates.go:69-78 | len(hours) fractions; the i-th is (hours_watched[i], hours_broadcast[i]) |
| Aggregates.AggregateMetricFun | broadcasterdb/aggregates.go:80-89 | len(hours) accumulators; the i-th is the maker applied to series[i] (longer series are truncated) |
| Aggregates.Trunc | broadcasterdb/aggregates.go:95 | float-to-integer conversion drops the fraction, rounding toward zero |
| Aggregates.BucketDays | broadcasterdb/aggregates.go:97-100 | the daily bucket of a sample is the UTC day floor of its truncated timestamp |
| Aggregates.TimeKeysDays | broadcasterdb/aggregates.go:97-100 | every daily key is the day floor of its sample: a midnight at or before the sample, less than a day before it |
| Aggregates.TimeKeysHours | broadcasterdb/aggregates.go:93-96 | every hourly key is the sample timestamp truncated toward zero; for a non-negative sample it is the whole second at or below it, less than one second below |
| Aggregates.AggrTimes | broadcasterdb/aggregates.go:92-103 | Hours: len(hours) keys, each the truncated timestamp. Days: len(hours) keys, each its UTC day floor. Any other resolution: no keys |
| Aggregates.TestInputsDayBuckets | broadcasterdb/aggregates_test.go:50-55 | the test row's timestamps 0, 3600 and 43200 all bucket to day 0 |
| Aggregates.AvgConcurrentsExample | broadcasterdb/aggregates_test.go:15-19 | avg_concurrents on the test row reports 1, 2 and 6 per sample, and 2.4 once merged |
| Aggregates.MaxConcurrentsExample | broadcasterdb/aggregates_test.go:21-25 | max_concurrents on the test row reports 3, 2 and 5 per sample, and 5 once merged |
| Aggregates.HoursExamples | broadcasterdb/aggregates_test.go:27-37 | hours_watched merges to 6 and hours_broadcast to 2.5 on the test row |
| RowMaps.DecodeColumnsFromDecoded | broadcasterdb/broadcasterdb.go:66-73 | decoding succeeds iff every column is present and decodes; it then holds each column's decoded series and nothing else new |
| RowMaps.DecodeColumnsFromStops | broadcasterdb/broadcasterdb.go:66-71 | a failed decoding stops at the first column, in order, that is missing or fails; every earlier column decoded |
| RowMaps.DecodeColumnsFromFailed | broadcasterdb/broadcasterdb.go:68-70 | the error returned is the decoder's error on one of the columns |
| RowMaps.DecodeRowColumns | broadcasterdb/broadcasterdb.go:35 | a decoded row holds exactly hours, max_concurrents, hours_broadcast and hours_watched, each the decoder's series; a failure carries a column's decode error |
| RowMaps.DecodeMonth | broadcasterdb/broadcasterdb.go:65-73 | the column loop returns the row's decoding: the four series, or the first decode error |
| RowMaps.FirstUndecoded | broadcasterdb/broadcasterdb.go:64-71 | every row before the index decodes, and the row at the index (if any) does not |
| RowMaps.KeysOfUnion | broadcasterdb/broadcasterdb.go:75-80 | a key is a bucket exactly when some sample of some row has it |
| RowMaps.ContribsSound | broadcasterdb/broadcasterdb.go:82-90 | every accumulator merged into a slot comes from a sample keyed to that bucket |
| RowMaps.ContribsComplete | broadcasterdb/broadcasterdb.go:82-90 | every sample keyed to a bucket contributes its accumulator to that bucket's slot |
| RowMaps.RowMapSpecKeys | broadcasterdb/broadcasterdb.go:75-80 | the row-map's keys are the union over rows of `aggrTimes`; no rows give the empty map |
| RowMaps.RowMapSpecShape | broadcasterdb/broadcasterdb.go:77-79 | every vector has len(metrics) slots; every name is registered; slot i has metrics[i]'s variant |
| RowMaps.RowMapSpecSlot | broadcasterdb/broadcasterdb.go:82-90 | slot i of bucket b is the merge of exactly the accumulators that metrics[i]'s rule yields for the samples keyed b |
| RowMaps.SlotOfSnoc | broadcasterdb/broadcasterdb.go:85-89 | filling an empty slot or merging into a full one, one contribution at a time, leaves the merge of all of them |
| RowMaps.AccumulatedStep | broadcasterdb/broadcasterdb.go:84-90 | one more sample fills or merges its bucket's slot and leaves every other bucket's slot alone |
| RowMaps.PartialStep | broadcasterdb/broadcasterdb.go:84-90 | absorbing sample j of metric i changes only slot i of that sample's bucket |
| RowMaps.FreshKeySlots | broadcasterdb/broadcasterdb.go:77-79 | a bucket no earlier row has starts as a vector of empty slots |
| RowMaps.AbsorbStep | broadcasterdb/broadcasterdb.go:84-90 | the in-place fill-or-merge of one sample keeps the working map in step with the specification |
| RowMaps.InRowDone | broadcasterdb/broadcasterdb.go:82-91 | once every metric has absorbed every sample of a row, the working map is that of the rows so far plus this one |
| RowMaps.AfterRowsUnwrap | broadcasterdb/broadcasterdb.go:93 | after every row, every slot of every bucket is filled, and the unwrapped map is the specified row-map |
| RowMaps.AddBuckets | broadcasterdb/broadcasterdb.go:75-80 | adds an empty vector for every new bucket of the row; existing buckets keep theirs |
| RowMaps.AbsorbSamples | broadcasterdb/broadcasterdb.go:84-90 | metric i absorbs every sample of the row; the key set is unchanged |
| RowMaps.ApplyRule | broadcasterdb/broadcasterdb.go:83 | the registered function applied to a row returns the rule's accumulators |
| RowMaps.AbsorbRow | broadcasterdb/broadcasterdb.go:75-91 | one decoded row turns the working map of the earlier rows into that of the rows including it |
| RowMaps.Finish | broadcasterdb/broadcasterdb.go:93 | the returned map is the row-map of all rows |
| RowMaps.QueryRow | broadcasterdb/broadcasterdb.go:64-71 | a reached row either decodes into the next row's view or is the first row that fails |
| RowMaps.QueryDataAsRowMap | broadcasterdb/broadcasterdb.go:62-94 | if a row fails to decode, returns that row's error and no map; otherwise returns `RowMapSpec` of all rows |
| Stats.Step | broadcasterdb/stats.go:28-39 | the step of a supported resolution is positive |
| Stats.AxisFromShape | broadcasterdb/stats.go:29-33 | point k is k steps after the first; every point is before the stop; one more step would not be |
| Stats.TimeAxisShape | broadcasterdb/stats.go:26-43 | Hours/Days: starts at start, steps by 3600 or 86400, stays below end + 1 day, stops at the first step that would not. Otherwise empty |
| Stats.TimeAxisAscending | broadcasterdb/stats.go:26-43 | the axis is strictly ascending |
| Stats.BuildTimes | broadcasterdb/stats.go:26-43 | the two append loops produce exactly `TimeAxis` |
| Stats.MergeVec | broadcasterdb/stats.go:64-66 | the slot-by-slot merge of two fitting vectors fits |
| Stats.Combined | broadcasterdb/stats.go:55-68 | the accumulator is nil exactly when no row-map has t; otherwise it fits the metrics |
| Stats.CombinedSlots | broadcasterdb/stats.go:55-68 | slot j of the accumulator is the merge, in map order, of slot j of every row-map that has t |
| Stats.DenseRowCells | broadcasterdb/stats.go:69-76 | column 0 is t; when no map has t, every metric column is 0; otherwise column j+1 reports the merge of slot j |
| Stats.DenseRowSingleSource | broadcasterdb/stats.go:61-62 | a time held by one row-map reports that map's own accumulators |
| Stats.PickedPermutation | broadcasterdb/stats.go:56-67 | the same row-maps in any order contribute the same accumulators to each slot, up to order |
| Stats.DenseRowOrderIndependent | broadcasterdb/stats.go:54-77 | the matrix row does not depend on the order of `statRowMaps` |
| Stats.FirstHolder | broadcasterdb/stats.go:61-62 | no map before the index has t, and the map at the index (if any) does |
| Stats.MergedAtElsewhere | broadcasterdb/stats.go:54-68 | visiting time t changes no map at any other time, nor any map's key set |
| Stats.AfterDenseEffect | broadcasterdb/stats.go:54-68 | after the axis is visited, the first map holding a visited time holds the merged vector there; everything else is unchanged |
| Stats.AfterDenseUnvisited | broadcasterdb/stats.go:54-68 | a time not yet visited combines as in the original maps |
| Stats.MergeInto | broadcasterdb/stats.go:64-66 | the loop over metrics yields the slot-by-slot merge |
| Stats.CombineAt | broadcasterdb/stats.go:55-68 | returns the combined accumulator; only the first map holding t changes, its vector at t becoming the merge |
| Stats.FillRow | broadcasterdb/stats.go:69-76 | row i becomes the time and each slot's report, or the time and zeros; other rows are unchanged |
| Stats.DenseMultichannelStats | broadcasterdb/stats.go:45-79 | a fresh len(times) × (len(metrics)+1) matrix whose row i is `DenseRow` of times[i]; the maps end as `AfterDense` describes |
| Stats.QueryResultFitted | broadcasterdb/broadcasterdb.go:77-90 | every vector of a built row-map fits the variants of the requested metrics |
| Stats.FirstError | broadcasterdb/stats.go:99-106 | there is no error exactly when every result succeeded |
| Stats.FirstErrorIsFirst | broadcasterdb/stats.go:99-106 | the error reported is that of the first failed result |
| Stats.OkMaps | broadcasterdb/stats.go:98-106 | one row-map per result, each the result's own |
| Stats.GetStats | broadcasterdb/stats.go:81-108 | any resolution other than Hours or Days gives "Unit not recognized"; else the first error, if any, with no matrix; else the dense matrix of all results |

## Left out

**External systems and concurrency**
- The DynamoDB layer is not modelled: `connect`, `Table`, `TableFromDescription`, `fetchRawStats`, and the fetch in `getSparseStats` (broadcasterdb/broadcasterdb.go:17-60 and 96-135). A channel's stored rows, and each channel's result, are inputs.
- JSON decoding of an attribute (broadcasterdb/broadcasterdb.go:68) is the `Decoder` parameter. It yields a series or an error.
- The goroutine fan-out and the size-10 result channel of `GetStats` (broadcasterdb/stats.go:86-97) are a sequence of results in arrival order. Which error is returned depends on that order. The goroutines left blocked after an early return are not modelled.

**Numbers and time**
- Floating point: `float64` is `real`.
  - Rounding is not modelled.
  - A fraction with a zero denominator (Inf or NaN in the source) is excluded by `Summarizable` / `Reportable`.
  - `float64(t)` in column 0 is exact.
  - `int64(t)` for out-of-range floats, and 64-bit overflow of times, are not modelled.
- Time: the Pacific-time functions (common/time_round.go:13-47) depend on the time-zone database and are not part of this model.
  - All instants are UTC epoch seconds, so `AddDate(0, 0, 1)` is +86400 and `Add(time.Hour)` is +3600.
  - Go's 400-year-cycle date arithmetic is replaced by a search over years. Both compute the proleptic Gregorian calendar.
- Test tables: the literal instants of common/time_round_test.go:35-58 are covered by `DayFloorOfCivil`, `HourFloorOfCivil` and `MonthFloorOfCivil` for every date and clock time, plus `May2014`. They are not restated one by one.

**Panics excluded by preconditions**
- A row missing one of the four stored columns dereferences a nil attribute in the source. It is the outcome `MissingColumn`, excluded by `Processable`.
- An unregistered metric name calls a nil function in the source. It is excluded by `ShapedFor`.
- A series shorter than "hours" indexes out of range. It is excluded by `Shaped`.
- `denseMultichannelStats` requires `AllFitted`: every vector has len(metrics) slots and slot j has metric j's variant. This asks more than the source needs. The source indexes only slots below len(metrics) (broadcasterdb/stats.go:64-66 and 73-75), so a longer vector is harmless. A shorter vector panics only at a time on the axis. A variant mismatch panics only in the type assertion of `Aggregate` (broadcasterdb/aggregates.go:18, 29 and 43), when two maps holding the same time disagree. Every row-map `queryDataAsRowMap` builds satisfies `AllFitted` (`QueryResultFitted`). The model does not describe the source's behaviour on other inputs that escape these panics.

**Representation choices**
- Accumulators are values. The aliasing in `denseMultichannelStats` is modelled as `MergedAt`: the vector of the first map holding t is replaced by the merged vector. `Summarize` is a function on a value, so it cannot change the accumulator.
- The flat buffer `stats_flat`, sliced into rows, is an `array2<real>`. Its cells start at zero.
- `AggregateMetricFun` is curried in the source: it returns a closure. The model takes the metric, the maker and the row together. The registry maps names to a `Rule` datatype, not to functions.
- The daily bucket in `TimeKeys`, the specification of `aggrTimes`, is written in closed form. `BucketDays` proves it equal to `DayFloor`, which the method `AggrTimes` calls.
- `GetStats`'s table name and channel list appear only as the sequence of per-channel results.
