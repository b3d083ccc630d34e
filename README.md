# ACINN weather plots: the data-ingestion core in Dafny

The ACINN weather-plot script fetches each weather station's recent
observations from `http://meteo145.uibk.ac.at/<station>/7`. It turns them
into a time-indexed table and draws dashboard charts from that table. This
project models the parts of `plot_acinn.py` that compute something:

- `read_data` after the feed has been fetched:
  - `datumsec` (milliseconds since 1970-01-01) becomes the time index, and the column is dropped;
  - every row holding `-99.9` in any column is set to missing in every column;
  - when the feed has a rain column `rr`, the daily running rain sum `rrcum` is added.
- `get_width`, the bar width of the sunshine plot.
- the loop that builds each station's feed URL.

Modules, one per step:

- `Frame` — the table. A row is a timestamp (milliseconds since the epoch)
  plus a map from column name to an optional real. `None` stands for
  pandas' NaN. `Day` is the calendar day that `pd.Grouper(freq='D')` puts a
  row in.
- `Ingest` — the frame `pd.read_json` returns, and the building of the
  time index. The exceptions `read_data` raises are a `Result` error:
  - `KeyError` for a feed without `datumsec`;
  - `ValueError` for a NaN stamp;
  - `OverflowError` for a stamp outside Python's `datetime` range;
  - `TypeError` from the daily grouping when the feed has `rr` but no rows.
    An empty list of datetimes does not make a `DatetimeIndex`.
- `Scrub` — the loop over columns that blanks whole rows. It is a method
  with nested loops, proved equal to the reference function `Scrubbed`.
  Lemmas prove sentinel absence, the row-wide effect, that the time index
  is kept, and idempotence.
- `RainCum` — the groupby-day `cumsum`. `RunningDailyRain` is one pass with
  a running total per day. `DailyRain` is an independent reference sum.
  Lemmas prove that the two agree. They also prove the reset at each day
  boundary and the running-sum step.
- `Pipeline` — `read_data` end to end, with the whole contract stated
  against the raw feed.
- `BarWidth` — `get_width`, taking the table as a parameter instead of
  reading the global frame.
- `StationFeeds` — the URL of each station. `FillUrls` is the column-filling
  loop. `UrlInjective` proves that any two distinct station names get
  distinct URLs. A parser reads a station name without '/' back out of its
  URL.

## Behaviour notes

- An empty feed `[]` gives a frame with no columns. `df['datumsec']` then
  raises `KeyError`, so the model returns `NoTimestampColumn`.
- `df[df[column] == -99.9] = np.nan` selects whole rows, so every column of
  such a row becomes missing, not only the field that held `-99.9`.
- Every column, `rr` and `so` included, is tested for exact equality with
  `-99.9`; no other negative value is treated as missing.

## Model

| member | source | states |
|---|---|---|
| Frame.Day | plot_acinn.py:50 | the daily bin of a timestamp is the floor of its milliseconds by 86400000: the day's midnight is at or before the time, and the next midnight is after it |
| Frame.DayMonotone | plot_acinn.py:50 | a later timestamp never falls on an earlier calendar day |
| Ingest.KeptColumns | plot_acinn.py:42-44 | after `df['time'] = …`, `set_index('time')` and `drop(columns='datumsec')`, the columns are exactly the feed's columns other than `datumsec` and `time`, and there are no more of them than before |
| Ingest.ToTime | plot_acinn.py:42 | `datetime(1970,1,1) + timedelta(milliseconds=ds)` is the time `ds` ms after the epoch when the stamp exists and lies in years 1 to 9999; a NaN stamp gives ValueError and an out-of-range one OverflowError carrying the stamp, each with the record's index |
| Ingest.Stamps | plot_acinn.py:42 | the comprehension succeeds exactly when every record's stamp is valid and then gives each record's time in order; otherwise it fails with the error of the first invalid record |
| Ingest.Normalize | plot_acinn.py:41-44 | fails with KeyError exactly when `datumsec` is not a column, otherwise with the first bad stamp's error; on success the table is rectangular, keeps the row count and order, each row's time is its `datumsec`, the columns are the feed's minus `datumsec` and `time`, and every cell is as read |
| Scrub.Blank | plot_acinn.py:47 | a row hit by `df[mask] = np.nan` keeps its time and its columns, and all its cells are missing |
| Scrub.ScrubStep | plot_acinn.py:46-47 | scrubbing one more column acts on each row exactly as the loop body does: a row holding the sentinel in that column is blanked, any other row is kept |
| Scrub.ScrubSentinel | plot_acinn.py:45-47 | the column loop returns `Scrubbed(t)`: same columns, row count and times; a row with the sentinel in any column is all missing, a row without one is unchanged, and no row holds the sentinel afterwards |
| Scrub.ScrubbedRowClean | plot_acinn.py:46-47 | a scrubbed row holds the sentinel in none of the table's columns |
| Scrub.ScrubRemovesSentinel | plot_acinn.py:46-47 | after the scrub no cell of any column equals -99.9 |
| Scrub.ScrubIdempotent | plot_acinn.py:46-47 | scrubbing the scrubbed table changes nothing |
| Scrub.ScrubKeepsRectangular | plot_acinn.py:47 | blanking rows keeps every row holding exactly the table's columns |
| RainCum.RunningDailyRainCorrect | plot_acinn.py:50-51 | the single pass with one running total per day gives, from any row on, exactly the reference daily sums, provided its totals are right so far |
| RainCum.RainCum | plot_acinn.py:50-51 | the `rrcum` column has one cell per row |
| RainCum.RainCumCorrect | plot_acinn.py:50-51 | each `rrcum` cell is missing exactly where `rr` is, and otherwise is the sum of the non-missing `rr` of the same calendar day up to and including that row |
| RainCum.NoEarlierRain | plot_acinn.py:50-51 | a day with no reading among the first n rows has a running sum of 0 |
| RainCum.FirstOfDay | plot_acinn.py:50-51 | the first reading of a calendar day has `rrcum == rr`: nothing carries over from other days |
| RainCum.MidnightReset | plot_acinn.py:50-51 | in a time-ordered feed, the first reading after midnight has `rrcum == rr` |
| RainCum.NoRainBetween | plot_acinn.py:50-51 | rows without a reading on day d leave that day's running sum unchanged |
| RainCum.SameDayStep | plot_acinn.py:51 | a reading's `rrcum` is the previous same-day reading's `rrcum` plus its own `rr` |
| RainCum.DailyRainNonNegative | plot_acinn.py:51 | with no negative `rr`, no day's running sum is negative |
| RainCum.RainCumNonNegative | plot_acinn.py:51 | with no negative `rr`, `rrcum` is never negative (so never -99.9) |
| RainCum.MidnightExample | plot_acinn.py:50-51 | readings of 2.0 at 23:50 and 3.0 at 00:00 give `rrcum` 2.0 and 3.0, not 5.0 |
| RainCum.DailyRainSameRain | plot_acinn.py:50-51 | the daily sums depend only on the rows' times and `rr` cells |
| RainCum.WithRainCum | plot_acinn.py:49-51 | without `rr` the table is unchanged; with `rr`, `rrcum` is added (or overwritten), row count, times and every other cell are kept, and each `rrcum` cell is the day's running sum of `rr` |
| RainCum.RainCumPresence | plot_acinn.py:49-51 | for a table without an `rrcum` column of its own, `rrcum` is present exactly when `rr` is (a table that already has `rrcum` keeps it) |
| RainCum.WithRainCumKeepsRectangular | plot_acinn.py:49-51 | adding `rrcum` keeps every row holding exactly the table's columns |
| Pipeline.StagesShape | plot_acinn.py:41-51 | scrub then `rrcum` after a successful conversion: rectangular, one row per record, time from `datumsec`, columns are the feed's minus `datumsec`/`time` plus `rrcum` exactly when `rr` is present |
| Pipeline.StagesCells | plot_acinn.py:45-51 | no column holds -99.9 (every column when the feed has no `rr`; all but the recomputed `rrcum` otherwise); a record with -99.9 in any column is missing in each of those columns; any other record keeps its cells |
| Pipeline.StagesRainCum | plot_acinn.py:49-51 | with `rr` in the feed, each `rrcum` cell is the running daily sum of the returned table's own `rr` |
| Pipeline.ReadData | plot_acinn.py:36-52 | `read_data` fails exactly when `datumsec` is absent or some stamp is NaN or out of range, with the conversion's error, or when `rr` is a column of a feed with no rows, with the grouping's TypeError; otherwise its table satisfies all of the above with respect to the feed |
| BarWidth.MinTime | plot_acinn.py:21 | `min(df.index)` is an element of the index no greater than any other |
| BarWidth.MaxTime | plot_acinn.py:22 | `max(df.index)` is an element of the index no smaller than any other |
| BarWidth.Span | plot_acinn.py:21-23 | `maxdate - mindate` in milliseconds is non-negative |
| BarWidth.SpanIsLargestGap | plot_acinn.py:21-23 | the span bounds every difference of two timestamps and equals one of them |
| BarWidth.ScaledPerRow | plot_acinn.py:23 | `0.8 * span / n` times n is 0.8 times the span; it is non-negative and 0 for a zero span |
| BarWidth.Width | plot_acinn.py:17-23 | no width for an empty index (min() raises); otherwise 0.8 × span / row count, non-negative, and 0 for a single row |
| BarWidth.SpanOfOne | plot_acinn.py:21-23 | a single timestamp has span 0 |
| BarWidth.SpanOrderIndependent | plot_acinn.py:21-22 | the span depends only on the multiset of timestamps |
| BarWidth.WidthOrderIndependent | plot_acinn.py:21-23 | the width does not depend on the order of the rows |
| StationFeeds.StationUrl | plot_acinn.py:205 | the URL has the combined length of base, station, '/' and window, and for a station name without '/' it parses back into that station and window |
| StationFeeds.FirstSlashAfter | plot_acinn.py:205 | the first '/' after a slash-free station name is the separator the URL adds |
| StationFeeds.ParseConcat | plot_acinn.py:205 | `base + station + '/' + time` reads back as (station, time) |
| StationFeeds.UrlInjective | plot_acinn.py:204-206 | distinct station names get distinct URLs, for any base and window |
| StationFeeds.ConfiguredUrlsDistinct | plot_acinn.py:186-206 | the four configured stations (innsbruck, sattelberg, obergurgl, ellboegen) each get a URL of their own under the configured base and window "7" |
| StationFeeds.FillUrls | plot_acinn.py:202-206 | after the loop, every row of the `url` column holds `base + station + '/' + time` for its own station |

## Left out

- The network read `pd.read_json(url)` (plot_acinn.py:41). The model starts from the parsed frame, a `RawFeed`. pandas' handling of malformed JSON is not part of this model.
- Floating point. Cells, `-99.9` and `0.8` are exact reals. A float sentinel that is not bit-equal to the literal `-99.9` would escape the scrub; the model does not represent that case.
- Timestamps outside pandas' nanosecond range (years 1677 to 2262) are not modelled. Only Python `datetime`'s own range (years 1 to 9999) is an error here.
- The daily bins of `pd.Grouper(freq='D')` are summed in row order. For an unsorted index, pandas may sum in time order instead. The feed is in ascending time order, where the two agree.
- `df[mask] = np.nan` updates the frame in place. The model returns a new table instead. The frame is local to `read_data`, so nothing else can observe the difference.
- FillUrls: the chained assignment `stations['url'].loc[...] = url` is taken to write through to the station table, as it does in pandas versions without copy-on-write.
- `merc` (plot_acinn.py:25-34) is left out. It is a floating-point map projection with `log` and `tan`.
- The plotting code (plot_acinn.py:54-180, 212-236) is left out: figures, axes, hover tools, tabs and the map plot. So is the HTML output (185, 240-241).
- The station coordinates (198-200) and the colour and font settings are static configuration, so they are left out.
