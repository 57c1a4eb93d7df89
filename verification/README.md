# Quant candles core, in Dafny

This project models the core of fastapi-quant-candles, a service that downloads exchange trades
and turns them into candles. The model has four parts:

- **Trade aggregation** (`quant_tick/lib/aggregate.py`). This part has four pieces:
  - Raw ticks are merged into samples. Ticks merge when they share an instant, a side and a symbol.
  - Samples are cut into volume bars inside time windows.
  - Bars are clustered into runs of one side.
  - Columns are summed per time window.
- **Time-frame iteration** (`quant_candles/controllers/iterators.py`). The trade-data and
  candle-cache iterators choose which intervals still need work: coarse chunks, then hours, then
  missing intervals. They go forwards or backwards in time. The `aggregate_candles` driver calls
  the candle once per such interval.
- **The adaptive candle's cache rule** (`quant_candles/models/candle_types/adaptive_candles.py`).
  A moving-average target is recomputed once a day from daily trade summaries. A candle closes
  once its sample value reaches that target.
- **The Coinbase candle helpers** (`quant_tick/exchanges/coinbase/candles.py`). These build the
  request URL and the pagination id, and map the API's positional rows to OHLC records.

Modelling choices:

- Quantities (price, volume, notional, ticks) are exact integers. The source's
  `is_decimal_close` check therefore becomes equality. The adaptive target is a `real`.
- Timestamps are integer seconds, with `Minute = 60`, `Hour = 3600` and `Day = 86400`.
- A frame's optional `symbol` column becomes a `symbol: Option<string>` on every row.
- Helpers whose code is not part of this model become function-valued parameters:
  - the calendar iterators `iter_window`, `iter_once`, `iter_timeframe` and `iter_missing`;
  - `has_timestamps` and `get_existing`;
  - the parent candle's methods.
- `WellBehaved` (iterators) and `Tiling` (windows) are the only assumptions made about those
  parameters.
- The clock is a `now` parameter.
- The database is a sequence of records.
- The Python assertions on volume are handled in two ways:
  - for `aggregate_trades` they are proved never to fire;
  - for `volume_filter_with_time_window` the result is a `Result`, and a lemma proves `Success`
    on time-ordered input.

Modules, one per file:

| Module | Contents |
|---|---|
| `Common` | Shared definitions |
| `Runs` | Maximal runs of equal keys |
| `Windows` | Timestamp filters and tilings |
| `Intervals` | Ordered interval sequences |
| `TradeAggregation` | Tick merging |
| `VolumeFilter` | Volume bars |
| `Clustering` | Runs of one side |
| `WindowSum` | Sums per window |
| `Iterators` | Time-frame iterators |
| `Driver` | The `aggregate_candles` driver |
| `Adaptive` | Adaptive candle cache |
| `Coinbase` | Coinbase candle helpers |

## Model

| member | source | states |
|---|---|---|
| TradeAggregation.IsSample | quant_tick/lib/aggregate.py:13-26 | Two rows start different samples exactly when their instant, nanoseconds, side or symbol differ; a frame without a symbol column compares no symbol |
| TradeAggregation.AggTradesSpec | quant_tick/lib/aggregate.py:83-109 | A sample takes its uid from the run's first row; it takes instant, price, side and symbol from the last row; it carries the run's volume and notional sums and its row count, for one row as for many |
| TradeAggregation.AggregateRuns | quant_tick/lib/aggregate.py:44-75 | Exactly one sample per run, in order, sample i being the aggregate of run i |
| TradeAggregation.MergedSamplesConserve | quant_tick/lib/aggregate.py:76-79 | The merged samples conserve the rows' total volume and notional, and their tick counts add up to the number of rows, so the volume assertion holds on every input |
| TradeAggregation.LastComparisonAgrees | quant_tick/lib/aggregate.py:48-66 | On an open run of one key, the last iteration's comparison with the run's first row decides the same as the usual comparison with the previous row |
| TradeAggregation.ScanSamplesMerged | quant_tick/lib/aggregate.py:44-71 | From any loop state, the samples the loop still emits are those of the maximal runs of the rows from the open run's start |
| TradeAggregation.MergeLoop | quant_tick/lib/aggregate.py:43-71 | The loop over a frame of two or more rows, with its separate last iteration, emits the samples the scan defines |
| TradeAggregation.AggregateTrades | quant_tick/lib/aggregate.py:29-80 | The output is one sample per maximal run of rows sharing instant, nanoseconds, side and symbol, in order; with `MergedSamplesConserve` this means the volume assertion never fires |
| TradeAggregation.MergeExample | quant_tick/lib/aggregate.py:29-80 | Two ticks at one instant and side merge (uid of the first, summed volume, two ticks); a third tick at another instant stays alone |
| Runs.SplitIsDecomposition | quant_tick/lib/aggregate.py:223-234 | The runs concatenate back to the input; each run is non-empty and holds one key; neighbouring runs have different keys |
| Runs.DecompositionUnique | quant_tick/lib/aggregate.py:223-234 | Any decomposition into non-empty one-key runs whose neighbours differ is the one `Split` computes |
| Runs.ScanRunsSplit | quant_tick/lib/aggregate.py:223-234 | The run-by-run scan from any consistent state yields the maximal runs of what remains |
| Windows.FilterInBounds | quant_tick/lib/aggregate.py:112-127 | The filter keeps no more rows than it was given, and each kept row lies inside the bounds; the upper bound is inclusive only when asked |
| Windows.FilterMembership | quant_tick/lib/aggregate.py:112-127 | A row is kept exactly when it is in the frame and inside the bounds |
| Windows.FilterAppend | quant_tick/lib/aggregate.py:119-125 | Filtering two frames one after the other gives the filter of their concatenation, so order is kept |
| Windows.FilterKeepsAll | quant_tick/lib/aggregate.py:119-125 | When every row is inside the bounds the frame comes back whole |
| Windows.FilterKeepsNone | quant_tick/lib/aggregate.py:119-127 | When no row is inside the bounds nothing is kept, the empty frame included |
| Windows.ChunksReassemble | quant_tick/lib/aggregate.py:136-145 | Cutting a time-ordered frame by windows that tile its span gives every row to exactly one window, in order |
| VolumeFilter.GroupTotalsSpec | quant_tick/lib/aggregate.py:200-211 | The one-pass totals are the column maximum and minimum, each attained, and the column sums, with buy totals over buy rows only |
| VolumeFilter.SumBuySide | quant_tick/lib/aggregate.py:200-209 | Summing a column over the buy side equals summing it over all rows with sell rows counted as zero |
| VolumeFilter.VolumeBarSpec | quant_tick/lib/aggregate.py:172-213 | A bar takes uid, instant and price from its closing row; it spans its rows' prices and carries their totals and buy totals; the closing row's own fields appear exactly when the bar closed on volume, and are absent on a trailing bar |
| VolumeFilter.FirstClose | quant_tick/lib/aggregate.py:149-152 | The next close is the first row at or after the start that reaches the minimum volume; no row before it does |
| VolumeFilter.FalsyMinVolumeBars | quant_tick/lib/aggregate.py:151-160 | When the minimum volume is `None` or 0, every row closes a bar, so each row is a bar of its own |
| VolumeFilter.BarGroupsPartition | quant_tick/lib/aggregate.py:149-164 | A window's rows are cut exactly after each row reaching the minimum volume; only the last group may end without one |
| VolumeFilter.ScanBarsPartition | quant_tick/lib/aggregate.py:149-164 | From any state of the inner loop, the bars still to come are the bars of the partition of the pending rows |
| VolumeFilter.ScanWindow | quant_tick/lib/aggregate.py:147-160 | After the row loop, the bars emitted so far followed by the open bar from `next_index` are all the bars of the window's scan |
| VolumeFilter.WindowBars | quant_tick/lib/aggregate.py:147-164 | The row loop plus the trailing open bar emit the bars of the scan, which are the bars of the window's partition |
| TradeAggregation.MergeStep | quant_tick/lib/aggregate.py:48-66 | One loop iteration before the last keeps the open run within one key, and the rows merged from the next state extend to the merged rows from this one |
| VolumeFilter.WindowBarsPartition | quant_tick/lib/aggregate.py:147-164 | A window's bars are one bar per group of its partition, in order |
| VolumeFilter.BarsOfPointwise | quant_tick/lib/aggregate.py:157-164 | Bar i is the bar of group i, marked as closed on volume exactly when the group's last row reaches the minimum volume |
| VolumeFilter.BarsConserve | quant_tick/lib/aggregate.py:165-168 | The bars' total volume equals the volume of the rows they cover |
| VolumeFilter.WindowStep | quant_tick/lib/aggregate.py:144-164 | One window adds its partition's groups and their bars to the loop state |
| VolumeFilter.VolumeFilterWithTimeWindow | quant_tick/lib/aggregate.py:130-169 | The output is the bars of each window's partition, window after window, when their total volume is the input's; otherwise it is the integrity error |
| VolumeFilter.WindowGroupsFlatten | quant_tick/lib/aggregate.py:144-164 | Across all windows the bar groups hold exactly the rows the windows select |
| VolumeFilter.VolumeFilterConserves | quant_tick/lib/aggregate.py:134-168 | On time-ordered rows with windows tiling from the first row to a minute past the last, no row is lost or repeated and the volume assertion holds |
| Clustering.ClusterOfSpec | quant_tick/lib/aggregate.py:241-258 | A cluster takes the first row's time and side and spans to the last row's time; it sums exactly the columns every row of its run carries |
| Clustering.ClusterTrades | quant_tick/lib/aggregate.py:238-259 | One cluster per run, in order |
| Clustering.GroupingDone | quant_tick/lib/aggregate.py:233-234 | Closing the last open run leaves exactly the maximal runs of one side |
| Clustering.GroupBySide | quant_tick/lib/aggregate.py:220-234 | The grouping loop yields the maximal runs of equal `tickRule` |
| Clustering.ClusterTradesWithTimeWindow | quant_tick/lib/aggregate.py:216-235 | The output is one cluster per maximal same-side run |
| Clustering.ClustersAlternate | quant_tick/lib/aggregate.py:223-258 | The runs concatenate back to the rows; every row of a run has its cluster's side; consecutive clusters are on different sides |
| Clustering.ClustersConserve | quant_tick/lib/aggregate.py:249-257 | A column every row carries is carried by every cluster, and the clusters' sums of it add up to the rows' sum |
| Clustering.ClusterExample | quant_tick/lib/aggregate.py:216-235 | Sides +1, +1, -1, +1 give three clusters of two, one and one rows |
| WindowSum.DenseSamplesSpec | quant_tick/lib/aggregate.py:275-285 | The intended series has one sample per window, stamped with the window's start; it sums each requested column over the window's rows, giving zero for an empty window |
| WindowSum.NonEmptyWindows | quant_tick/lib/aggregate.py:282-285 | No more windows than given, each one of the given windows and each holding at least one row |
| WindowSum.SparseIsDenseOfNonEmpty | quant_tick/lib/aggregate.py:275-285 | As written, the output is the intended series restricted to the windows that hold rows |
| WindowSum.SparseDenseSameTotal | quant_tick/lib/aggregate.py:275-285 | Dropping empty windows loses no mass: both series have the same column totals |
| WindowSum.DenseConserves | quant_tick/lib/aggregate.py:262-286 | On time-ordered rows and windows tiling their span, the intended series conserves every requested column |
| WindowSum.AggregateSumConserves | quant_tick/lib/aggregate.py:262-286 | The code as written also conserves every requested column, whether the columns are given as none, one name or a list |
| WindowSum.FirstMissingSpec | quant_tick/lib/aggregate.py:282-284 | No requested column is reported missing exactly when every row has every requested column; one reported missing is requested and absent from some row |
| WindowSum.AggregateSumResultSpec | quant_tick/lib/aggregate.py:262-286 | The call raises exactly when some window holds rows and a requested column is missing, naming such a column; otherwise it returns the samples as written |
| WindowSum.AggregateSumResultConserves | quant_tick/lib/aggregate.py:262-286 | When the call succeeds on time-ordered rows and windows tiling their span, every row has each requested column and its total is conserved |
| WindowSum.GapWindowExample | quant_tick/lib/aggregate.py:275-285 | Rows at seconds 0 and 120 with one-minute windows give two samples as written and three as intended |
| Iterators.NotFailedMembership | quant_candles/controllers/iterators.py:139-140 | Excluding failed records keeps exactly the records not marked failed, unset ones included |
| Iterators.TradeRecordsForMembership | quant_candles/controllers/iterators.py:134-141 | A trade record counts as existing exactly when it lies in `[from, to)` and, on a retry, is not marked failed |
| Iterators.RetryExisting | quant_candles/controllers/iterators.py:130-168 | A local candle-cache retry reports nothing as existing; any other call passes `get_existing` either the window's stored caches or the selected trade records |
| Iterators.IterRange | quant_candles/controllers/iterators.py:78-92 | Every chunk yielded is a time-frame window that has no data according to its own existing timestamps, and that the iterator can iterate |
| Iterators.IterRangeMembership | quant_candles/controllers/iterators.py:86-96 | A time-frame window is yielded exactly when it has no data yet and the iterator can iterate it; for candle caches that means the candle can aggregate it |
| Iterators.MaxTimestampTo | quant_candles/controllers/iterators.py:55-57 | The bound is the current time floored to the minute |
| Iterators.GuardMembership | quant_candles/controllers/iterators.py:118-121 | A missing interval is yielded exactly when its start differs from its end clamped to the bound |
| Iterators.GuardExamples | quant_candles/controllers/iterators.py:118-121 | With the clock at 150 s the bound is 120 s; an interval running past it is yielded whole, one starting on it is dropped, and one wholly after it is still yielded |
| Iterators.HourExistingMembership | quant_candles/controllers/iterators.py:109-113 | An hour's existing timestamps are exactly the chunk's timestamps inside that hour |
| Iterators.HourOutputMembership | quant_candles/controllers/iterators.py:114-121 | An hour with data yields nothing; any other hour yields exactly its missing intervals that pass the clock guard |
| Iterators.IterHoursMembership | quant_candles/controllers/iterators.py:98-121 | An interval comes out of `iter_hours` exactly when one of the chunk's hours, in the iterator's direction, yields it |
| Iterators.HourOutputOrdered | quant_candles/controllers/iterators.py:114-121 | What an hour yields stays inside the hour and follows the iterator's direction |
| Iterators.IterHoursOrdered | quant_candles/controllers/iterators.py:98-121 | What `iter_hours` yields stays inside its chunk and follows the iterator's direction |
| Iterators.IterAllMembership | quant_candles/controllers/iterators.py:59-76 | An interval comes out of `iter_all` exactly when `iter_hours` yields it for one of the chunks `iter_range` yields |
| Iterators.IterAllOrdered | quant_candles/controllers/iterators.py:59-76 | The intervals yielded lie inside the requested range and never overlap; candle caches go from past to present and trade data from present to past |
| Driver.RunBlocks | quant_candles/controllers/iterators.py:36-47 | The driver's trace is one block of five calls per interval, each starting from the cache the previous intervals left |
| Driver.RunTrace | quant_candles/controllers/iterators.py:34-47 | Per interval, in order, the five calls with their exact arguments; the first cache read is the one `initialize` returned |
| Driver.AggregateCandlesForward | quant_candles/controllers/iterators.py:26-47 | The driver reads trades only inside the initialised range, interval after interval, forwards in time and without overlap |
| Adaptive.DateOf | quant_candles/models/candle_types/adaptive_candles.py:28 | A timestamp's date is the start of its day |
| Adaptive.SummariesAsWrittenEmpty | quant_candles/models/candle_types/adaptive_candles.py:35-40 | As written the summary query selects nothing, whatever the summaries |
| Adaptive.SummariesMembership | quant_candles/models/candle_types/adaptive_candles.py:35-40 | The intended query selects exactly the summaries dated in the configured number of days before the timestamp's day |
| Adaptive.Capitalize | quant_candles/models/candle_types/adaptive_candles.py:45 | Capitalising keeps every letter; the first character is left with no small letter and the others with no capital |
| Adaptive.Lower | quant_candles/models/candle_types/adaptive_candles.py:45 | Lower-casing keeps every letter and leaves no capital |
| Adaptive.LowerIdempotent | quant_candles/models/candle_types/adaptive_candles.py:45 | Lower-casing twice is lower-casing once |
| Adaptive.CapitalizeIgnoresCase | quant_candles/models/candle_types/adaptive_candles.py:45 | Two spellings of the same letters capitalise to the same text |
| Adaptive.CapitalizeLower | quant_candles/models/candle_types/adaptive_candles.py:45 | Capitalising ignores a prior lower-casing |
| Adaptive.TotalKeyIgnoresCase | quant_candles/models/candle_types/adaptive_candles.py:44-53 | Sample types spelled with the same letters read the same summary key |
| Adaptive.TotalKeyExamples | quant_candles/models/candle_types/adaptive_candles.py:44-53 | `volume`, in any capitalisation, reads the key `totalVolume` |
| Adaptive.TargetScales | quant_candles/models/candle_types/adaptive_candles.py:53-54 | The target times the days times the candles per day is the selected summaries' total |
| Adaptive.TargetValueAsWrittenZero | quant_candles/models/candle_types/adaptive_candles.py:42-54 | As written the target is always zero |
| Adaptive.GetCacheDataAsWrittenZero | quant_candles/models/candle_types/adaptive_candles.py:25-33 | As written, a stale or missing target is replaced by 0, so the candle then closes on any non-negative sample value; a current target is kept; date and sample value are untouched |
| Adaptive.GetCacheDataExample | quant_candles/models/candle_types/adaptive_candles.py:25-64 | A cache from the day before with sample 1 and one summary of 48: as written the target becomes 0 and the candle closes, as intended it becomes 2 and the candle stays open |
| Adaptive.GetCacheDataRefresh | quant_candles/models/candle_types/adaptive_candles.py:25-33 | As intended, a stale or missing target is replaced by the target of the summaries in the window; a fresh one leaves the cache as the parent left it; date and sample value are untouched; afterwards there is a target |
| Adaptive.InitialCacheNeedsTarget | quant_candles/models/candle_types/adaptive_candles.py:21-23 | A new cache is dated on the timestamp's day, has sampled nothing and has no target, so it needs a target at its first update |
| Adaptive.ShouldAggregateAfterUpdate | quant_candles/models/candle_types/adaptive_candles.py:62-64 | After the update as intended, the candle closes exactly when its sample value reaches the recomputed target, or the kept one |
| Adaptive.CanAggregateAsWrittenNever | quant_candles/models/candle_types/adaptive_candles.py:56-60 | As written an adaptive candle can never aggregate |
| Adaptive.CanAggregateIff | quant_candles/models/candle_types/adaptive_candles.py:56-60 | As intended, a candle can aggregate exactly when its parent can and some summary is dated in the days before the start's day |
| Adaptive.TargetExample | quant_candles/models/candle_types/adaptive_candles.py:35-54 | A total of 48 the day before, over one day and 24 candles a day, gives the intended target 2 and the as-written target 0 |
| Coinbase.NatToStringRoundTrip | quant_tick/exchanges/coinbase/candles.py:52 | The decimal text of a number reads back as that number |
| Coinbase.BaseUrlGranularity | quant_tick/exchanges/coinbase/candles.py:52 | The base URL is the products endpoint followed by the granularity's digits, which read back as the granularity |
| Coinbase.CandleUrlShape | quant_tick/exchanges/coinbase/candles.py:14-22 | The URL always adds the start; it adds `&end=` and the id exactly when the pagination id is truthy, and nothing else otherwise |
| Coinbase.PaginationIdDependsOnLastTime | quant_tick/exchanges/coinbase/candles.py:25-36 | No rows means no pagination id; otherwise the id depends only on the last row's time field |
| Coinbase.ToOhlcRoundTrip | quant_tick/exchanges/coinbase/candles.py:66-76 | The positional mapping loses nothing: the API row is rebuilt from the record and its time field |
| Coinbase.MapRows | quant_tick/exchanges/coinbase/candles.py:66-76 | One record per API row |
| Coinbase.MapRowsPositional | quant_tick/exchanges/coinbase/candles.py:66-76 | Record i comes from row i: time from field 0, low 1, high 2, open 3, close 4, notional 5 |
| Coinbase.CandleTimestampAgrees | quant_tick/exchanges/coinbase/candles.py:39-41 | The timestamp `iter_api` reads from each row is the timestamp of the record that row becomes |
| Coinbase.MapRowsAppend | quant_tick/exchanges/coinbase/candles.py:66-76 | Mapping pages that a caller joined is mapping each page in turn |

## Left out

- Database access (Django querysets, `delete()` of caches and candle data, summary ordering by date) is modelled as sequences of records. The deletion on a local retry appears only as its effect on what counts as existing.
- Network access is left out: `iter_api`, `get_coinbase_api_response` and the request throttling are not part of this model.
- Decimal and float arithmetic is left out. Quantities are exact integers, so `is_decimal_close` and the `or ZERO` defaults become exact equality and zero sums. The adaptive target is an exact `real`.
- The datetime conversions are function parameters: `isoformat`, `fromtimestamp`, the timezone replacement and `to_pydatetime`.
- Cluster `seconds` is modelled as an integer difference of second timestamps.
- `iter_window`, `iter_once`, `iter_timeframe`, `iter_missing`, `has_timestamps` and `get_existing` of the calendar library are not part of this model. They are parameters. The proofs assume only that their windows tile the range (`Tiling`), or lie in it and follow the requested direction (`WellBehaved`).
- The candle's own methods are parameters: `initialize`, `get_data_frame`, `get_cache`, `aggregate`, `write_cache`, `write_data`, the parent `get_cache_data` and the parent `can_aggregate`.
- `Iterators.IterAll` and `Driver.AggregateCandles` take one clock reading (`now`) and one snapshot of the stored caches for the whole `aggregate_candles` run. The source's generators are lazy: they read the clock for each missing interval, and read each chunk's caches only after the earlier chunks were written. A clock that ticks during the run is not modelled. The cache snapshot gives the same chunks provided the candle writes caches only inside the interval it was given: those intervals lie in chunks already yielded, and chunks do not overlap.
- `WindowSum.ValueOf` reads a column missing from a row as 0. Where that matters, the frame lacks the column and the source raises `KeyError`; `WindowSum.AggregateSumResult` models that error, and the conservation lemmas about it hold only on success.
- `Adaptive.Capitalize` handles ASCII letters only. Python's `str.capitalize` also handles other Unicode letters.
- `Adaptive.GetCacheData` (as intended) requires every summary in the window to carry the sample type's total. A summary without it would make the dictionary lookup at adaptive_candles.py:53 raise `KeyError`; that error path is not modelled. `Adaptive.GetCacheDataAsWritten` reads no summary and has no such requirement.
- `Adaptive.GetCacheDataRefresh`: a stale cache's target may be recomputed to the value it already had. The lemma therefore states the new target, not that the cache changed.
- `Driver.RunTrace`: the candles written are stated as `Produced`, the first component of what the candle's `aggregate` returns. Nothing more can be said about a parameter.
- The `window` argument of `cluster_trades_with_time_window` is unused by the source, so it is not modelled.
- Empty frames are handled as follows:
  - `aggregate_trades` and `volume_filter_with_time_window` require a non-empty frame;
  - on an empty frame the source builds an empty DataFrame, whose missing `volume` column makes the assertion raise.
- The target computation requires non-zero days and candles per day. The source would divide by zero.
- The initial Coinbase pagination id (`timestamp_to_inclusive`) is not part of this model.
- `TradeDataSummary` ordering by date does not change the sum, so it is not modelled.
- Model fields of `Candle`, `CandleCache` and `TradeData` outside what the iterators read are not modelled. These include the `(symbol, timestamp, frequency)` uniqueness constraint.
- `iter_hours` computes a clamped end but yields the unclamped one. The model follows the code, and `Iterators.GuardExamples` shows the effect.

## Findings

`aggregate_sum` zero-initialises every requested column of every window's sample (aggregate.py:279-281), so empty windows were evidently meant to give zero rows. The code appends the sample only inside `if len(df)`, so they never do. The model follows the code, and the first finding below records the difference. In the second finding, `get_cache_data` as written inherits the empty summary query: every refresh sets the target to 0.

| source | as written | input that shows it | evidently intended | confidence | as-written member | corrected member |
|---|---|---|---|---|---|---|
| quant_tick/lib/aggregate.py:275-285 | A sample is appended only inside `if len(df)`, so windows without rows are skipped and the zero-filled sums are never emitted | Rows at seconds 0 and 120 with one-minute windows give 2 samples, missing the window at 60 | One sample per window, zero sums for empty windows | not executed | WindowSum.SparseIsDenseOfNonEmpty, WindowSum.GapWindowExample | WindowSum.DenseSamplesSpec, WindowSum.DenseConserves |
| quant_candles/models/candle_types/adaptive_candles.py:35-40 | The summary query filters `date >= date_from` and `date < date_from`, which no date satisfies | One summary dated the previous day with total 48, one day and 24 candles a day: target 0, `can_aggregate` false, and a refreshed candle with sample 1 closes at once | Summaries of the `days` days before the timestamp's day, giving target 2 | not executed | Adaptive.SummariesAsWrittenEmpty, Adaptive.TargetValueAsWrittenZero, Adaptive.CanAggregateAsWrittenNever, Adaptive.GetCacheDataAsWrittenZero, Adaptive.GetCacheDataExample | Adaptive.SummariesMembership, Adaptive.CanAggregateIff, Adaptive.TargetExample, Adaptive.GetCacheDataRefresh, Adaptive.ShouldAggregateAfterUpdate |
