# climate-analysis: date-list counting, datetime masks and the envelope step loop, in Dafny

This project models the parts of three scripts of the climate-analysis repository that can be
stated and checked without drawing or reading a file:

- `visualisation/plot_date_list.py` turns a list of event dates into daily counts of 1. It keeps
  the counts inside a date window (`time_filter`) and zero-fills every missing day
  (`fill_out_dates`). It shrinks the window to whole December–November years for the seasonal
  plot (`get_seasonal_bounds`) and sums the counts into monthly or 3-monthly bins, dropping the
  last bin (`aggregate_data`). The seasonal stack plot (`plot_seasonal_stackplot`) splits the bins
  into DJF/MAM/JJA/SON series with a stride of 4 and stacks them per year. The monthly histogram
  groups totals and day counts by calendar month. `main` runs one plot per requested plot type.
- `modules/convenient_anaconda.py` builds a boolean mask over a list of dates
  (`pandas_dt_selector`). It also checks the latitude options of `nc_to_df` and assembles its
  table column by column. Both modules find the repository root by walking the working
  directory's path components up to `climate-analysis`.
- `visualisation/plot_envelope.py` reads the optional wind and streamfunction inputs
  (`extract_data`) and picks the axis list of the restored envelope (`restore_env`). `main` then
  writes one map per time step, named and titled by a date suffix, with a colour-bar tick list
  that loses its last tick after every step.

Modules and files:

| file | module | models |
|---|---|---|
| results.dfy | `Results` | `Option`, and `Result` with the Python exception kinds the code raises |
| calendar.dfy | `Calendar` | Gregorian dates, their order, the next day, `pandas.date_range`, the `%Y-%m-%d` text form |
| text.dfy | `Text` | `str.split` with a one-character separator, and `str.join` |
| date_list.dfy | `DateList` | `time_filter`, `fill_out_dates`, `get_seasonal_bounds`, `aggregate_data` |
| date_list_plots.dfy | `DateListPlots` | the counting parts of the two plots and `main`'s plot loop |
| repo_root.dfy | `RepoRoot` | the repository-root walk shared by both modules |
| anaconda.dfy | `ConvenientAnaconda` | `pandas_dt_selector`, and the option and table logic of `nc_to_df` |
| envelope.dfy | `PlotEnvelope` | `extract_data`, the axis choice of `restore_env`, and `main`'s time-step loop |

A data frame of daily counts is a sequence of `Entry(date, count)`. `time_filter` and
`fill_out_dates` are functions because the code builds new frames from expressions. The loops
are methods with invariants, each proved against a function that states what the loop computes:

- `season_counts` in `plot_seasonal_stackplot`;
- `main`'s loops over plot types and over time steps;
- the repository-root walk;
- the column fill of `nc_to_df` (a Dafny `array2`, as numpy preallocates it);
- the `opt_data` loop of `extract_data`.

`pandas_dt_selector` has no loop: it narrows one mask through a chain of `if`s. It is a method
whose result is stated entry by entry through the predicate `Selected`.

`aggregate_data` delegates binning to pandas' `TimeGrouper`. The model keeps the bin rule
abstract: `BinRules` gives each day the label of its monthly and of its seasonal bin. On a
contiguous daily series the bins are then the runs of days with equal labels. The properties
proved hold for any labelling: the drop-last, the conservation of the total and the stride-4
split.

The files are read through parameters: a reader function in `NcToDf` and `ExtractData`, the
time axis as a sequence of strings, and the working directory as a string.

### Seasonal bounds that cross

The docstring of `get_seasonal_bounds` promises that only full December–November years are
kept. The code at `visualisation/plot_date_list.py:64-72` moves a start outside December forward
to 1 December of the same year, and an end outside December back to 30 November of the year
before. For the window 1980-01-01 to 1980-12-31 this gives 1980-12-01 to 1980-11-30: the start
lies after the end, nothing rejects it, and the range between them holds no day. The model
follows the code: `DateList.SeasonalBoundsExample` and `DateList.SeasonalBoundsTextExample`
state this result. A window already aligned on season years also loses one year at each end
(`DateList.SeasonalBoundsAlignedRange`).

## Model

| member | source | states |
|---|---|---|
| Calendar.NextDayIsSuccessor | visualisation/plot_date_list.py:48 | the next day is the first date after `d`: `x` is after `d` exactly when `x` is at or after `NextDay(d)` |
| Calendar.NextDayValid | visualisation/plot_date_list.py:48 | the day after a valid date is valid when some valid date lies after it |
| Calendar.OrderIsTotal | visualisation/plot_date_list.py:137-143 | any two dates are ordered one way or the other, so every date is either inside or outside a window |
| Calendar.DateRange | visualisation/plot_date_list.py:48 | `pandas.date_range(start, end)`: empty exactly when start is after end; otherwise it runs from start to end in steps of one day, strictly ascending, all days valid and inside the bounds |
| Calendar.DateRangeMembers | visualisation/plot_date_list.py:48 | a date is in the range exactly when it is valid and lies between the bounds, both inclusive |
| Calendar.FormatThenParse | visualisation/plot_date_list.py:61-74 | parsing the `%Y-%m-%d` text of a valid date gives the date back |
| Calendar.ParseThenFormat | visualisation/plot_date_list.py:61-74 | text that parses is exactly the `%Y-%m-%d` text of the date it parses to |
| Calendar.ParseIsoFields | visualisation/plot_date_list.py:61-62 | the year, month and day are read from digits 0-3, 5-6 and 8-9; text naming a day that does not exist does not parse |
| Text.Split | visualisation/plot_envelope.py:98 | `str.split`: one piece more than separators, no piece holds the separator, and joining the pieces gives the text back |
| Text.SplitJoin | visualisation/plot_envelope.py:98 | splitting a join of separator-free pieces gives the pieces back |
| Text.SplitAtSeparator | visualisation/plot_envelope.py:98 | when `a` holds no separator, the pieces of `a + sep + b` are `a` followed by the pieces of `b` |
| DateList.TimeFilter | visualisation/plot_date_list.py:134-147 | keeps exactly the entries with start ≤ date ≤ end, each as often as in the input, in input order |
| DateList.TimeFilterIdempotent | visualisation/plot_date_list.py:134-147 | filtering an already filtered frame with the same bounds changes nothing |
| DateList.FillOutDates | visualisation/plot_date_list.py:45-51 | fails with ValueError exactly when a date occurs twice and the range holds a day (pandas re-indexes onto an empty range without looking at duplicates); otherwise one entry per day of the range, carrying the input count of that day |
| DateList.FillOutDatesValid | visualisation/plot_date_list.py:48-49 | the filled frame has one row per day of the range, each a valid date |
| DateList.FillOutDatesCoversRange | visualisation/plot_date_list.py:48-49 | every day from start to end appears in the filled frame |
| DateList.FillOutDatesKeepsCount | visualisation/plot_date_list.py:49 | an input entry inside the range appears unchanged in the filled frame |
| DateList.FillOutDatesZeroes | visualisation/plot_date_list.py:49 | a day the input does not mention is filled with 0 |
| DateList.FillOutDatesTotal | visualisation/plot_date_list.py:45-51 | the filled frame's total equals the total of the input entries inside the range |
| DateList.FilterThenFillTotal | visualisation/plot_date_list.py:157-179 | filtering then zero-filling over the same window cannot fail on a frame without repeated dates, and keeps the filtered total |
| DateList.SeasonalBounds | visualisation/plot_date_list.py:54-74 | new start is 1 December of the start's year, or of the next year for a December start; new end is 30 November of the year before the end's, or of the end's year for a December end; ValueError exactly when the new start's year passes 9999 (`datetime`) or either new year lies before 1900 (Python 2 `strftime`); both new dates are then valid |
| DateList.SeasonalBoundsInside | visualisation/plot_date_list.py:61-74 | the new start is not before the old start and the new end is not after the old end |
| DateList.SeasonalBoundsWholeYears | visualisation/plot_date_list.py:54-74 | every day between the new bounds belongs to a December-November year that lies wholly between the new bounds, and so wholly inside the original window |
| DateList.SeasonalBoundsAlignedRange | visualisation/plot_date_list.py:64-72 | the aligned window 1979-12-01..2012-11-30 becomes 1980-12-01..2011-11-30: a whole season year is lost at each end |
| DateList.SeasonalBoundsExample | visualisation/plot_date_list.py:64-72 | 1980-01-01..1980-12-31 gives 1980-12-01..1980-11-30, whose date range is empty |
| DateList.SeasonalBoundsText | visualisation/plot_date_list.py:61-74 | on text: succeeds exactly when both arguments parse and both new years lie in 1900..9999, fails with ValueError otherwise, and the results parse back to the computed bounds |
| DateList.SeasonalBoundsTextExample | visualisation/plot_date_list.py:61-74 | on text, "1980-01-01", "1980-12-31" gives "1980-12-01", "1980-11-30" |
| DateList.SeasonalBoundsTextBefore1900 | visualisation/plot_date_list.py:74 | "1850-01-01", "1890-12-31" is refused with ValueError: `strftime` cannot write 1850 or 1890 |
| DateList.SeasonalBoundsTextInvalid | visualisation/plot_date_list.py:61 | a start of "1979-02-31" is refused with ValueError |
| DateList.Runs | visualisation/plot_date_list.py:39 | the bins of a series: consecutive runs of days with the same bin label, none empty, neighbours with different labels, together the whole series in order |
| DateList.Buckets | visualisation/plot_date_list.py:39 | one bucket per run, none for an empty series, neighbouring labels differ, each bucket holds the sum of its run's counts, and the bucket totals sum to the series total |
| DateList.AggregateData | visualisation/plot_date_list.py:33-42 | AssertionError for a timescale other than monthly or seasonal; IndexError for an empty series; otherwise all buckets but the last |
| DateList.AggregateDataTotal | visualisation/plot_date_list.py:39-40 | the kept buckets' total plus the dropped last bucket's total is the series total |
| DateListPlots.SeasonSplit | visualisation/plot_date_list.py:111-120 | the stride-4 split of the season bins: AssertionError unless the count is a multiple of 4, IndexError when there are none, KeyError when a first-four label is not a season month or two share a season; its meaning is stated by `SeasonSplitMeaning` and `SeasonSplitSeries` |
| DateListPlots.EveryFourth | visualisation/plot_date_list.py:117 | `s[start::4]`: value `k` is `s[start + 4k]`, and there are ⌈(n - start) / 4⌉ of them |
| DateListPlots.SeasonSplitMeaning | visualisation/plot_date_list.py:111-128 | the split succeeds exactly when the bucket count is a positive multiple of 4 and the first four buckets are labelled with four different season months |
| DateListPlots.SeasonSplitSeries | visualisation/plot_date_list.py:114-117 | after a successful split every season has a series; the season of bucket j (j < 4) holds `counts[j::4]`, with n/4 values |
| DateListPlots.SplitSeasons | visualisation/plot_date_list.py:111-117 | the `for i in range(0,4)` loop fills `season_counts` as the split states |
| DateListPlots.YearTotals | visualisation/plot_date_list.py:125-128 | the per-year sums of four consecutive buckets, one per year, adding up to the total of all buckets |
| DateListPlots.StackHeightsPerYear | visualisation/plot_date_list.py:125-128 | all four series have the same length; the stacked height of year y is DJF+MAM+JJA+SON, the sum of buckets 4y..4y+3; the heights add up to the total |
| DateListPlots.SumByKey | visualisation/plot_date_list.py:90-91 | `groupby(key).sum()`: a key is present exactly when it occurs, and holds the sum of its values |
| DateListPlots.MonthlyTotals | visualisation/plot_date_list.py:90-91 | the aggregated buckets grouped by calendar month and summed, a `SumByKey` whose sum is stated by `MonthlyTotalsSum` |
| DateListPlots.MonthDays | visualisation/plot_date_list.py:181 | the filled days grouped by calendar month and counted, stated by `MonthDaysCount` |
| DateListPlots.MonthlyTotalsSum | visualisation/plot_date_list.py:90-91 | the twelve monthly totals add up to the total of the aggregated buckets |
| DateListPlots.MonthDaysCount | visualisation/plot_date_list.py:181 | `month_days` keys are months 1..12, each counting at least one day, and the counts add up to the number of filled days |
| DateListPlots.Ones | visualisation/plot_date_list.py:155-156 | `dates_df`: one entry per listed date, in list order, each with count 1 |
| DateListPlots.HistogramFor | visualisation/plot_date_list.py:178-182 | the histogram branch: fill the window, aggregate by month, group totals and days by month, ValueError unless both hold months 1..12; stated by `HistogramParts`, `HistogramMeaning` and `HistogramDays` |
| DateListPlots.StackFor | visualisation/plot_date_list.py:183-186 | the stack-plot branch: seasonal bounds, fill, aggregate by season, then `SeasonalStackOf`; stated by `StackParts` and `StackMeaning` |
| DateListPlots.PlotFor | visualisation/plot_date_list.py:172-186 | one plot type: AssertionError for a type other than the two, otherwise the histogram or the stack plot |
| DateListPlots.MonthlyAggregateTotal | visualisation/plot_date_list.py:88-91 | with month bins labelled by valid dates, the calendar-month totals of the kept bins plus the dropped last bin give the series total |
| DateListPlots.HistogramParts | visualisation/plot_date_list.py:94-100 | a histogram is drawn only after the fill and the monthly aggregation succeed, and only when both month groupings hold exactly the months 1..12 |
| DateListPlots.HistogramMeaning | visualisation/plot_date_list.py:178-182 | a drawn histogram has one total per calendar month, and these totals plus the dropped last month bin add up to the counts inside the window |
| DateListPlots.HistogramDays | visualisation/plot_date_list.py:181-182 | the day counts of a drawn histogram cover months 1..12, none is zero, and they add up to the number of days in the window |
| DateListPlots.SeasonalStackOf | visualisation/plot_date_list.py:107-128 | the stack plot is drawn exactly when the season split succeeds; its series are the split and its heights the per-year sums of four bins |
| DateListPlots.StackParts | visualisation/plot_date_list.py:183-186 | a drawn stack plot went through the seasonal bounds, the fill and the seasonal aggregation, and is `SeasonalStackOf` of the season bins |
| DateListPlots.StackOfBuckets | visualisation/plot_date_list.py:114-128 | stacking all season bins but the last gives one height per four bins, each their sum, and the heights plus the last bin add up to all bins |
| DateListPlots.StackMeaning | visualisation/plot_date_list.py:183-186 | a drawn stack plot has one height per whole season year between the seasonal bounds, the sum of that year's four season bins, and the heights plus the dropped last bin add up to the counts between the bounds |
| DateListPlots.Plot | visualisation/plot_date_list.py:172-187 | one turn of `main`'s loop computes `PlotFor`: the histogram or the stack plot, with the properties stated by the three lemmas above, or AssertionError for another plot type |
| DateListPlots.CollectMeaning | visualisation/plot_date_list.py:171-187 | a run succeeds with one value per step, each that step's value, or fails with the error of a step whose predecessors all succeeded |
| DateListPlots.PlotAll | visualisation/plot_date_list.py:171-187 | the loop over plot types gives the plots of all types in order, or stops at the first failure |
| DateListPlots.PlotDateList | visualisation/plot_date_list.py:150-187 | `main`: counts of 1 per date, filtered to the window, then the plots of the requested types |
| RepoRoot.Cut | modules/convenient_anaconda.py:24-27 | the walk takes the components up to and including the first `climate-analysis`, or all of them when none is |
| RepoRoot.FindRepoRoot | modules/convenient_anaconda.py:22-27 | the loop's `repo_dir` is '/' joined with the components of `cwd.split('/')[1:]` up to the cut |
| RepoRoot.JoinAllOfComponents | modules/convenient_anaconda.py:25 | joining non-empty, slash-free components onto '/' one by one gives '/' followed by the components joined with '/' |
| RepoRoot.AbsolutePathComponents | modules/convenient_anaconda.py:24 | `cwd.split('/')[1:]` of an absolute path gives back the components it was written from |
| RepoRoot.RepoRootOfPath | visualisation/plot_date_list.py:15-20 | for a path without empty components, the root is the path cut after the first `climate-analysis`, or the whole path when there is none |
| ConvenientAnaconda.And | modules/convenient_anaconda.py:59 | element-wise `&`: same length, each entry true exactly when both are |
| ConvenientAnaconda.PandasDtSelector | modules/convenient_anaconda.py:40-71 | KeyError exactly when a given season label is unknown and there is a date; otherwise a mask as long as the dates, each entry true exactly when the date is in the season's months and within the inclusive bounds |
| ConvenientAnaconda.NoFilterSelectsAll | modules/convenient_anaconda.py:54-71 | with no season, start or end, every date is selected |
| ConvenientAnaconda.SeasonMonths | modules/convenient_anaconda.py:48-59 | DJF selects months 12, 1, 2; MAM 3-5; JJA 6-8; SON 9-11 |
| ConvenientAnaconda.FiltersOnlyNarrow | modules/convenient_anaconda.py:54-69 | removing any one filter keeps every selected date selected |
| ConvenientAnaconda.FilterOrderIrrelevant | modules/convenient_anaconda.py:54-69 | AND-ing the filters in either order gives the same mask |
| ConvenientAnaconda.BoundsInclusive | modules/convenient_anaconda.py:61-69 | a date equal to both bounds is kept |
| ConvenientAnaconda.LatitudeOptions | modules/convenient_anaconda.py:101-108 | no latitude: no option; equal bounds: one latitude, no flags; otherwise the band, with the method's flag set, and AssertionError unless the method is mermax or spatave |
| ConvenientAnaconda.FillColumn | modules/convenient_anaconda.py:116-120 | `data[:, j] = values` writes column j, from the values or one broadcast value, and leaves the other columns alone |
| ConvenientAnaconda.NcToDf | modules/convenient_anaconda.py:110-128 | rows are the first variable's time steps and headers the variable list in order; column j holds variable j. Errors: IndexError for no variables; ValueError exactly when some column has the wrong length; otherwise KeyError exactly when the last variable has no history; the history comes from the last variable read |
| PlotEnvelope.InitialSettings | visualisation/plot_envelope.py:86-95 | monthly: ticks 0..12 by 1, key 5, scale 200; daily: ticks 0..24 by 2, key 10, scale 300; 13 ticks and width 0.002 in both |
| PlotEnvelope.DateSuffix | visualisation/plot_envelope.py:98-102 | the file and title suffix of a time step: 'Y-M' or 'Y-M-D' from the date part of the printed date, ValueError when it does not unpack into three fields; stated by `DateSuffixOfDate` |
| PlotEnvelope.DateSuffixOfDate | visualisation/plot_envelope.py:98-102 | for a date printed 'Y-M-D h:m:s' the suffix is 'Y-M' for monthly data and 'Y-M-D' otherwise |
| PlotEnvelope.TicksAfterPrefix | visualisation/plot_envelope.py:129 | after k steps the first n - k ticks remain, and none once k reaches n |
| PlotEnvelope.StepTicks | visualisation/plot_envelope.py:129 | step k draws with the first max(13 - k, 0) initial ticks |
| PlotEnvelope.SliceOf | visualisation/plot_envelope.py:105-107 | a step has a wind or streamfunction slice exactly when that input was given |
| PlotEnvelope.PlotSteps | visualisation/plot_envelope.py:97-129 | one map per time step in time order, written to `{ofile}_{suffix}.png` with the title ending in the suffix and the ticks left by earlier steps; ValueError when a date does not unpack into year, month and day |
| PlotEnvelope.Optional | visualisation/plot_envelope.py:34-40 | an optional input is read exactly when it was given, None otherwise |
| PlotEnvelope.ExtractFor | visualisation/plot_envelope.py:26-46 | AssertionError exactly when a streamfunction input is given on another time axis than the envelope's; each optional input is present exactly when given |
| PlotEnvelope.ExtractData | visualisation/plot_envelope.py:33-44 | the `opt_data` loop and the check after it compute `ExtractFor` |
| PlotEnvelope.WindAxisUnchecked | visualisation/plot_envelope.py:42-44 | a zonal wind input on a different time axis passes the check |
| PlotEnvelope.ExtractChecked | visualisation/plot_envelope.py:42-44 | AssertionError exactly when some given optional input has another time axis than the envelope's; on success every present input shares it |
| PlotEnvelope.AxisList | visualisation/plot_envelope.py:63-66 | the restored field has a time axis exactly when the axis order contains 't'; latitude and longitude come last |

## Left out

- Drawing: bars, legends, labels, subplots, `savefig`, `plot_map.multiplot` and the metadata
  file. Each plot is modelled by the data it is drawn from.
- The percentage conversion of the monthly histogram (a floating-point division).
- The exact bin edges of pandas' `TimeGrouper` ('1M' and '3M', `closed='left'`). The bin label is
  a parameter of the model (`DateList.BinRules`), so the properties hold for any labelling.
- File input: netCDF and cdms2 access, `gio.read_dates`, `gio.standard_datetime`,
  `get_time_axis` and `netCDF4.num2date`. Readers and time axes are parameters. The
  `datetime_index` switch of `nc_to_df` only changes how the index labels are printed, so the
  index is kept as the reader gives it.
- The coordinate rotation of `restore_env` (`rot.switch_regular_axes`, `nio.coordinate_pairs`,
  `cdms2.createVariable`). Only the choice of the axis list is modelled.
- Command-line parsing, `eval` attribute access (an optional input is a map entry), `sys.path`
  changes and the ImportError raised when the repository root is wrong.
- `strptime` accepts some forms the model refuses, such as months and days without a leading
  zero; the model parses only the zero-padded `YYYY-MM-DD` form.
- pandas' timestamp range (years 1677-2262): `date_range` outside it raises an out-of-bounds
  error that the model does not raise.
- numpy broadcasting in the histogram's division: a one-element month grouping would broadcast
  against the other. With month bins that follow the calendar months this never leaves twelve
  values to draw, so the model fails every histogram whose groupings do not both hold months
  1..12, with the ValueError that numpy or matplotlib raises.
- Dates are `(year, month, day)` with years 1..9999, as Python's `datetime` has them. The
  window bounds of `main` are taken as given; a missing `--start` or `--end` is not modelled.
- Counts are integers. numpy stores them as floats, which changes no total in the ranges
  involved.
- DateListPlots.PlotDateList: states its result through `Collect`; the per-type reading is
  `CollectMeaning` applied to `Outcomes`, which the method's contract does not repeat.
- RepoRoot.RepoRootOfPath: states the root for working directories without empty path
  components (no doubled or trailing '/'). `FindRepoRoot` itself covers every string.
- PlotEnvelope.ExtractFor: says which optional inputs are present. `ExtractChecked` and
  `Optional` say what they hold.
- `plot_seasonal_stackplot` reads `start_year` and `end_year` from the MAM series' index. They
  only place the bars, so they are not modelled.

## Findings

| source | as written | input that shows it | evidently intended | confidence | as-written member | corrected member |
|---|---|---|---|---|---|---|
| visualisation/plot_envelope.py:42-44 | the time-axis check sits after the `opt_data` loop, so it compares only the last option, `sf`, with the envelope | a `--uwind` input on another time axis than the envelope, with no `--sf`: the check passes | check every given optional input, as the docstring and the message "Time axes must be the same for all input data" say | high; not executed | PlotEnvelope.WindAxisUnchecked | PlotEnvelope.ExtractChecked |
