# Crypto dashboard core, modelled in Dafny

The dashboard shows a trading pair's hourly candles with MA50/MA200, RSI and
MACD, one-second candles resampled from recent trades, the order book, and a
day × time-of-day volume heatmap built from 30-minute bars. This project
models the data processing behind those views and proves what it promises:

- `indicators.dfy` — rolling moving averages, the simple-mean RSI, the
  `adjust=False` EWMA and MACD, and the daily frame that carries them
  (`src/data_fetcher.py`).
- `resample.dfy` — the loop that turns trades into one-row candles and the
  1-second resampling that groups them into OHLCV bars, dropping empty
  seconds (`src/data_fetcher.py`).
- `order_book.dfy` — the order book as two price/amount frames.
- `heatmap_loader.dfy` — the paginated OHLCV loader, its module-level cache
  (a class holding a `map<string, Entry>`, updated in place) with its lazy
  1 h / 24 h expiry, and the period → look-back table (`src/heatmap.py`).
- `volume_heatmap.dfy` — the `(day, HH:MM)` bucketing and the mean-valued,
  zero-filled `pivot_table` of `app.py`, plus the base-asset label.
- `series.dfy`, `market.dfy`, `wrappers.dfy` — sums, extremes and means of
  real series; the bar and trade records; `Option` and `Result`.

Numbers are exact reals; where pandas would produce NaN the model produces
`None`. The exchange is an input: a list of trades, an order book, or — for
the loader — a finite store of bars with strictly increasing timestamps that
answers `fetch_ohlcv(since, limit)` with the first `limit` bars stamped at or
after `since`. Clock readings are parameters: the loader's freshness test and
the timestamp it stores are two separate readings of the clock in the code,
so they are two parameters (`now`, `later`, in microseconds), and
`get_timeframe_limits` takes the current time in milliseconds.

Three behaviours of the code that are easy to misread, which the model
keeps:
- the heatmap cell is the MEAN of the bucket's volumes (`pivot_table`'s
  default aggregation), not their sum; with the loader's unique 30-minute
  bars the two coincide, which `UniqueBarsFillTheirCells` proves;
- RSI is undefined (pandas' 0/0 → NaN) wherever the close did not move
  inside the window, always at index 0;
- the heatmap's columns are sorted as strings; the model builds them from
  the sorted minutes of the day and proves that order is the lexical one.

## Model

| member | source | states |
|---|---|---|
| Series.SumOfNonNegatives | src/data_fetcher.py:47-48 | a sum of non-negative values is non-negative, and zero exactly when every value is zero |
| Series.Sum | src/data_fetcher.py:31 | pandas `sum`, the volume aggregation of a bucket; definition, its properties are proved in `SumConcat` and `SumOfNonNegatives` |
| Series.Mean | src/data_fetcher.py:12-13 | pandas `mean`, used by the rolling windows (also lines 47-48) and as `pivot_table`'s default aggregation; definition, its properties are proved in `MeanBounds` and `MeanBetweenMinAndMax` |
| Series.Max | src/data_fetcher.py:31 | `max` of a non-empty group bounds every element and is one of them |
| Series.Min | src/data_fetcher.py:31 | `min` of a non-empty group is below every element and is one of them |
| Series.MeanBetweenMinAndMax | src/data_fetcher.py:12-13 | a mean lies between the minimum and the maximum of what it averages |
| Indicators.WindowSum | src/data_fetcher.py:47-48 | the online window sum (add the entering value, subtract the leaving one) equals the sum of the last min(i+1, w) values |
| Indicators.RollingMean | src/data_fetcher.py:47-48 | `rolling(w, min_periods).mean()` has the input's length; at index i it is the mean of the last min(i+1, w) values when at least `min_periods` are present, NaN otherwise |
| Indicators.MovingAverage | src/data_fetcher.py:12-13 | MA(w) has the closes' length, is defined exactly from index w−1 on, and there equals the mean of closes[i−w+1..i] |
| Indicators.FullWindows | src/data_fetcher.py:12-13 | with `min_periods` equal to the window, the rolling mean is defined exactly at full windows and there is the mean of the last w closes |
| Indicators.MovingAverageWithinWindow | src/data_fetcher.py:12-13 | a defined moving average lies between the minimum and maximum close of its window |
| Indicators.Delta | src/data_fetcher.py:44 | `diff(1)` is undefined exactly at index 0, and elsewhere the step from the previous close to this one |
| Indicators.GainLoss | src/data_fetcher.py:44-46 | gain and loss are non-negative, at most one is positive, gain − loss is the step, and the undefined first step gives (0, 0) |
| Indicators.Gains | src/data_fetcher.py:45 | the gain column has the closes' length and is non-negative |
| Indicators.Losses | src/data_fetcher.py:46 | the loss column has the closes' length and is non-negative |
| Indicators.RsiFromAverages | src/data_fetcher.py:49-50 | undefined exactly when both averages are 0; otherwise in [0, 100] and equal to 100·gain/(gain+loss); 100 when losses are 0 and gains positive |
| Indicators.WindowMean | src/data_fetcher.py:47-48 | the average of a non-negative column over the window is non-negative, and zero exactly when the window is all zeros |
| Indicators.Rsi | src/data_fetcher.py:43-52 | RSI has the closes' length, is RsiFromAverages of the windowed gain and loss means at every index, and lies in [0, 100] where defined |
| Indicators.WindowStep | src/data_fetcher.py:47-48 | moving the window one step adds the entering value and, once the window is full, subtracts the leaving one |
| Indicators.RsiUndefinedIffFlat | src/data_fetcher.py:44-50 | RSI at i is NaN exactly when no close in its window moved |
| Indicators.NoMovesIffFlat | src/data_fetcher.py:44-46 | a window has all gains and all losses zero exactly when no close in it moved |
| Indicators.StillStep | src/data_fetcher.py:44-46 | one step has zero gain and zero loss exactly when the close did not move (always at index 0) |
| Indicators.RsiUndefinedAtStart | src/data_fetcher.py:44-50 | RSI at index 0 is always NaN |
| Indicators.RsiSaturatesWithoutLosses | src/data_fetcher.py:49-50 | a window with no falling step and one rising step gives RSI exactly 100 |
| Indicators.Alpha | src/data_fetcher.py:55-58 | `ewm(span)`'s smoothing factor 2/(span+1) lies in (0, 1] |
| Indicators.EwmFrom | src/data_fetcher.py:55-58 | the `adjust=False` fold from a seed satisfies the recurrence at every index |
| Indicators.Ewm | src/data_fetcher.py:55-58 | ema has the input's length, ema[0] = x[0] and ema[t] = α·x[t] + (1−α)·ema[t−1] |
| Indicators.ConvexStep | src/data_fetcher.py:55-58 | one EWMA step stays inside any range holding its two operands |
| Indicators.EwmWithinRange | src/data_fetcher.py:55-58 | the EWMA at t stays within any range holding every input up to t |
| Indicators.Macd | src/data_fetcher.py:54-61 | macd = EMA12 − EMA26, signal = EMA9 of macd, histogram = macd − signal at every index, all three zero at index 0 and of the closes' length |
| Indicators.MacdOfConstantSeries | src/data_fetcher.py:54-61 | a constant price series gives MACD, signal and histogram identically zero |
| Indicators.BuildDailyFrame | src/data_fetcher.py:8-17 | the daily frame keeps the bars and adds MA50, MA200, RSI(14) and the three MACD columns, each aligned with the bars |
| Resample.Bucket | src/data_fetcher.py:31 | a timestamp's 1-second bucket starts on a whole second at or before it and holds it |
| Resample.BucketMonotone | src/data_fetcher.py:31 | later timestamps never fall into earlier buckets |
| Resample.RowOf | src/data_fetcher.py:27 | the row `[ts, price, price, price, price, amount]` of one trade; definition, used by `TradeRows` and `SecondBars` |
| Resample.TradeRows | src/data_fetcher.py:22-27 | the loop builds one `[ts, price, price, price, price, amount]` row per trade, in order |
| Resample.Resample | src/data_fetcher.py:28-31 | no more bars than rows, strictly increasing whole-second bar stamps, no bars exactly when no rows |
| Resample.Absorb | src/data_fetcher.py:31 | folds a row into its second's bar; definition, proved to be the aggregate in `AggregateSnoc` |
| Resample.Step | src/data_fetcher.py:31 | one row joins the last bar of its second or opens a new bar; definition, its effect is proved in `StepShape`, `StepSummarizes` and `StepCovers` |
| Resample.StepShape | src/data_fetcher.py:31 | one more row adds at most one bar, keeps the stamps ascending and on whole seconds, and the last bar is the row's bucket |
| Resample.Group | src/data_fetcher.py:31 | a bucket's group holds only rows of that bucket |
| Resample.GroupEmpty | src/data_fetcher.py:31 | a bucket no row falls into has an empty group |
| Resample.Aggregate | src/data_fetcher.py:31 | the first/max/min/last/sum bar of a non-empty group; definition, the independent reference that `ResampleIsGroupAggregate` compares the fold against |
| Resample.AggregateSnoc | src/data_fetcher.py:31 | aggregating one more row of a bucket (first, max, min, last, sum) is folding it into the bucket's bar |
| Resample.OtherBucketSummarized | src/data_fetcher.py:31 | a row of another second leaves a bar's aggregate unchanged |
| Resample.MergedBar | src/data_fetcher.py:31 | a row of the last bar's second is absorbed into that bar's aggregate |
| Resample.OpenedBar | src/data_fetcher.py:31 | a row of a second no earlier row reached opens a bar that is its own aggregate |
| Resample.ResampleIsGroupAggregate | src/data_fetcher.py:31 | every bar is the first/max/min/last/sum aggregate of its non-empty bucket, and every row's bucket has a bar, so empty seconds are dropped |
| Resample.ResampleConservesVolume | src/data_fetcher.py:31 | the bars' total volume equals the rows' total volume |
| Resample.AggregateWellFormed | src/data_fetcher.py:31 | a bucket whose first and last rows are well-formed aggregates to a bar with low ≤ open, close ≤ high |
| Resample.ResampleWellFormed | src/data_fetcher.py:31 | every bar has low ≤ open, close ≤ high |
| Resample.SecondBars | src/data_fetcher.py:19-34 | the seconds frame is the resample of the trade rows: at most one bar per trade, ascending unique whole-second stamps, well-formed bars, total volume = total traded amount |
| Resample.ResampleExample | src/data_fetcher.py:19-34 | trades at 0, 500 and 1500 ms make two bars, at 0 and 1000 ms |
| Resample.OpensNewBar | src/data_fetcher.py:31 | a row of a later second than the only bar so far adds a bar of its own after it |
| Resample.ExampleFirstSecond | src/data_fetcher.py:31 | trades at 0 and 500 ms merge into one bar with first open, max high, min low, last close and summed volume |
| OrderBook.ToFrame | src/data_fetcher.py:38-39 | a frame has one price and one amount per level |
| OrderBook.FrameRoundTrip | src/data_fetcher.py:38-39 | reading a built frame back row by row gives the levels, in order |
| OrderBook.RowsRoundTrip | src/data_fetcher.py:38-39 | every rectangular frame is the frame of its rows |
| OrderBook.FetchOrderBook | src/data_fetcher.py:36-41 | bids and asks come back with the exchange's length, order and (price, amount) values |
| HeatmapLoader.After | src/heatmap.py:33 | a bar is in the exchange's answer from `since` on exactly when it is in the history and stamped at or after `since`; the answer is no longer than the history |
| HeatmapLoader.Page | src/heatmap.py:33 | `fetch_ohlcv(since, limit)`: the first `limit` bars of `After`; definition, its properties are proved in `PageIsPrefix` and `ShortPage` |
| HeatmapLoader.NextCursor | src/heatmap.py:37 | the cursor `ohlcv[-1][0] + 1`; definition, its effect is proved in `CursorSkipsPage` |
| HeatmapLoader.AfterAscending | src/heatmap.py:33 | the answer keeps the history's strictly increasing order |
| HeatmapLoader.AfterTwice | src/heatmap.py:33 | asking from a later cursor equals filtering the earlier answer again |
| HeatmapLoader.CursorSkipsPage | src/heatmap.py:37 | after a page of k bars, the cursor last timestamp + 1 answers with exactly the bars that followed those k |
| HeatmapLoader.FullPage | src/heatmap.py:36-37 | after a full page the fetched prefix and what remains still make up the whole answer, and less remains |
| HeatmapLoader.PageIsPrefix | src/heatmap.py:33 | a page of `limit` bars is the first `limit` bars that remain |
| HeatmapLoader.ShortPage | src/heatmap.py:38-39 | a page shorter than `limit` is everything that remains |
| HeatmapLoader.LastPage | src/heatmap.py:34-39 | the empty or short page that stops the loop completes the answer |
| HeatmapLoader.ConcatSnoc | src/heatmap.py:36 | extending the collected pages by one page appends it |
| HeatmapLoader.FetchPages | src/heatmap.py:31-39 | the loop returns the concatenation of the pages in request order, which is every bar from `since` on; the first request is `since`, each later one is the previous page's last timestamp + 1, every page but the last has `limit` bars, the last is empty or short |
| HeatmapLoader.Expiry | src/heatmap.py:25 | the expiry is one hour exactly when the period is '1week', 24 hours otherwise |
| HeatmapLoader.CacheKey | src/heatmap.py:19 | the key `symbol_period`; definition, its properties are proved in `PeriodFromKey` and `CacheKeyInjective` |
| HeatmapLoader.PeriodFromKey | src/heatmap.py:19 | the period is what follows the key's last underscore |
| HeatmapLoader.CacheKeyInjective | src/heatmap.py:19 | for periods without '_', equal keys mean equal symbols and periods |
| HeatmapLoader.IsFresh | src/heatmap.py:26-27 | the hit test: data and timestamp both set and younger than the expiry; definition, its consequences are proved in `MissConditions` and `RepeatedRequest` |
| HeatmapLoader.MissConditions | src/heatmap.py:21-27 | a new key's placeholder is a miss, a slot with data or timestamp unset is a miss, and a slot exactly one expiry old is a miss |
| HeatmapLoader.OhlcvCache.constructor | src/heatmap.py:13 | the cache starts empty |
| HeatmapLoader.OhlcvCache.FetchOhlcvWithPagination | src/heatmap.py:16-45 | a hit returns the stored list, makes no exchange call and changes nothing; a miss returns everything from `since` on, stores it with the later clock reading under `symbol_period`, and leaves every other key as it was |
| HeatmapLoader.RepeatedRequest | src/heatmap.py:21-45 | a second request within the expiry returns the first payload with no exchange call; one after it fetches again |
| HeatmapLoader.GetTimeframeLimits | src/heatmap.py:47-58 | always '30m'; `since` is now minus 7, 30, 90 or 180 days for the four tab labels, strictly in the past; any other label is an error |
| VolumeHeatmap.MinuteOfDay | app.py:125-126 | the UTC minute of the day m is in [0, 1440) and is the minute holding the timestamp: day start + m minutes ≤ ts < day start + (m+1) minutes |
| VolumeHeatmap.Day | app.py:127 | the day number d is the UTC day holding the timestamp: d·86400000 ≤ ts < (d+1)·86400000 |
| VolumeHeatmap.TwoDigits | app.py:126 | two decimal digit characters that spell n, zero-padded |
| VolumeHeatmap.Label | app.py:126 | `HH:MM` of minute m of the day: five characters, ':' in the middle, the first two digits spell m / 60 (below 24), the last two m mod 60 |
| VolumeHeatmap.TimeLabel | app.py:125-126 | `strftime('%H:%M')` of a timestamp: five characters, four of them decimal digits around ':', spelling an hour below 24 and a minute below 60 that recompose the UTC minute of the day |
| VolumeHeatmap.LexLess | app.py:129 | Python's `<` on strings, which orders the pivot's columns; definition, its properties are proved in `LexLessFive`, `LabelOrder` and `LexLessIrreflexive` |
| VolumeHeatmap.LexLessFive | app.py:129 | two `HH:MM` strings compare lexically by the hour digits, then the minute digits |
| VolumeHeatmap.LabelOrder | app.py:126-129 | zero padding makes the labels' lexical order the minutes' order, and distinct minutes distinct labels |
| VolumeHeatmap.Insert | app.py:129 | inserting into an increasing index keeps it increasing and adds exactly the new key |
| VolumeHeatmap.SortedDistinct | app.py:129 | a pivot axis holds each distinct key once, increasing |
| VolumeHeatmap.PivotVolume | app.py:124-129 | rows are the distinct days ascending, columns the distinct labels in lexical order, the matrix is rectangular and every cell is the mean of its bucket's volumes or 0 |
| VolumeHeatmap.DayIndex | app.py:127-129 | the row index holds exactly the days of the bars |
| VolumeHeatmap.TimeColumns | app.py:126-129 | the column index holds exactly the labels of the bars |
| VolumeHeatmap.LabelsFollowMinutes | app.py:129 | labels built from increasing minutes are lexically increasing |
| VolumeHeatmap.CellVolumesEmpty | app.py:129 | a cell has no volumes exactly when no bar falls into its bucket |
| VolumeHeatmap.CellVolumes | app.py:129 | the volumes of one (day, time) bucket that `pivot_table` averages; definition, its properties are proved in `CellVolumesEmpty` and `CellVolumesSingle` |
| VolumeHeatmap.Grid | app.py:129 | the pivot's values: one row per day, one column per label, each entry the `Cell` of that pair |
| VolumeHeatmap.Cell | app.py:129 | the mean of the bucket's volumes, or the `fill_value` 0; definition, its properties are proved in `EmptyCellIsZero` and `UniqueBarsFillTheirCells` |
| VolumeHeatmap.EmptyCellIsZero | app.py:129 | a (day, label) pair with no bar is filled with 0 |
| VolumeHeatmap.CellVolumesSingle | app.py:129 | a bucket with one bar holds exactly that bar's volume |
| VolumeHeatmap.MinuteSplit | app.py:125-127 | a minute-aligned timestamp is its day's start plus its minute of the day |
| VolumeHeatmap.BucketDeterminesTimestamp | app.py:125-127 | minute-aligned timestamps with the same day and minute of day are equal |
| VolumeHeatmap.UniqueBarsFillTheirCells | app.py:129 | with unique minute-aligned timestamps (the 30-minute bars), each bar's cell holds exactly its volume |
| VolumeHeatmap.EveryBarInExactlyOneCell | app.py:125-129 | each bar falls into one cell of the matrix and no other |
| VolumeHeatmap.DistinctAxes | app.py:129 | no day and no label appears twice on an axis |
| VolumeHeatmap.LexLessIrreflexive | app.py:129 | no label sorts before itself |
| VolumeHeatmap.BaseAsset | app.py:144 | `pair.split("/")[0]` is a prefix of the pair without '/', followed by '/' unless it is the whole pair |

## Left out

- Exchange I/O (`fetch_ohlcv`, `fetch_trades`, `fetch_order_book`, `load_markets`, `milliseconds`, `parse8601`): the replies are inputs, and an exchange that raises, times out or rate-limits is not modelled.
- `fetch_trading_pairs` and `fetch_initial_data`: thin wrappers around the exchange with no logic of their own.
- Wall-clock reads: passed in as parameters; the `datetime` and `pd.Timestamp` types are integers of micro- or milliseconds.
- IEEE floating point: exact reals; rounding and inf/NaN propagation are not modelled beyond RSI's division by zero.
- `HeatmapLoader.OhlcvCache.FetchOhlcvWithPagination`: when the exchange raises during the page loop the code leaves the slot as it was: the `None` placeholder for a key seen for the first time, the stale entry for an expired one; the model's exchange cannot fail, so that state is not reached.
- `HeatmapLoader.FetchPages`: a real exchange caps a page below a large `limit`, which could end the loop early; the modelled exchange honours any `limit`. A `limit` below 1 is answered with an empty page.
- `Resample.Resample`: requires time-ordered rows, the order the exchange delivers trades in; pandas would also sort unsorted input first.
- `VolumeHeatmap.Day`: the calendar date is the day number since 1970-01-01, which orders and groups bars exactly as `dt.date` does; the civil-date rendering is display only.
- `VolumeHeatmap.PivotVolume`: `pivot_table` on an empty frame is not modelled as pandas does it; the model gives an empty matrix.
- Plotly figures, the Dash layout and callbacks, and the `whales` module imported by `app.py` (not shown): presentation only.
- Concurrent access to the cache: the code has no locking, and concurrency is outside the model.
