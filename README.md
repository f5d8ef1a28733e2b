# Installer downloads dashboard: a Dafny model

This project models the core of the Bokeh "downloads" applet
(`examples/app/downloads/downloads.py`). The applet reads a log of installer
downloads. Each row has a timestamp, an installer name, a platform and an
architecture. A form offers a category filter for each of those three
columns, a time resolution and a start and end date. On every change,
`update_data` does the following:

- It narrows the log by the form, one condition at a time.
- It counts the remaining rows per day, month or year, for the downloads
  plot.
- It counts them per hour of day and day of week, for the punchcard plot.
- It scales those counts by the busiest cell.
- It writes both results into the plots' column data sources and marks
  both sources dirty.

Modules, in dependency order:

- `Sequences`: boolean-mask selection (`Where`) and column mapping (`Map`),
  with the facts about membership, multiplicity and subsequences.
- `Grouping`: `groupby(...).size()` as `CountBy`, an ascending list of
  key/count tallies.
- `Text`: Python's string ordering (`StrLess`), used by `sorted`, and
  `str` on naturals (`NatToString`).
- `Calendar`: dates and timestamps, the earliest and latest timestamp, and
  the three resolutions with their bucketing rule.
- `Installers`: the log's rows and the form (`InstallersModel`). It holds
  each control's options and defaults, and the filter conditions.
- `Punchcard`: the 24 x 7 cell grid, its label columns and the
  normalisation of the counts.
- `Aggregation`: the selection, the time series and the punchcard counts,
  as functions of the log and the form, with their properties. It also
  holds both halves of the findings below.
- `Dashboard`: the stateful part.
  - `ColumnDataSource`: a class with a `data` map and a `dirty` flag.
  - `DownloadsApp`: a class holding the log, the form and the two sources.
    Its `Create` models `create`, `UpdateData` models `update_data` and
    `InputChange` models `input_change`.
  - `UpdateData` computes both aggregates through `Aggregate`, then
    writes them to the sources. `Aggregate` narrows the selection step
    by step, through `SelectRows`, and counts it through `CountDownloads`
    and `CountPunchcard`.
  - `Create` builds the label columns once, through `LabelColumns`;
    `UpdateData` never touches them.
  - Each of these methods is proved equal to the specification function
    of the same computation.

## Model

| member | source | states |
|---|---|---|
| Sequences.Where | examples/app/downloads/downloads.py:138-151 | a boolean-mask selection is no longer than its input and keeps only rows of the input that pass the mask |
| Sequences.WhereMember | examples/app/downloads/downloads.py:138-151 | a row is in a mask's selection exactly when it is in the input and passes the mask |
| Sequences.WhereMultiplicity | examples/app/downloads/downloads.py:138-151 | a selection keeps every passing row as often as the input has it, and no failing row |
| Sequences.WhereIsSubsequence | examples/app/downloads/downloads.py:138-151 | a selection keeps the input's order (it is a subsequence) |
| Sequences.WhereMonotone | examples/app/downloads/downloads.py:138-151 | a weaker mask selects a supersequence |
| Sequences.WhereWhere | examples/app/downloads/downloads.py:138-151 | applying two masks in turn selects the same rows as their conjunction, so the chain of reassignments equals one combined filter |
| Sequences.WhereCongruent | examples/app/downloads/downloads.py:138-151 | masks that agree on the input's rows select the same rows |
| Sequences.WhereAll | examples/app/downloads/downloads.py:138-151 | a mask that passes every row selects the whole input |
| Sequences.Map | examples/app/downloads/downloads.py:160 | `Series.map` keeps the length and maps each position |
| Sequences.MapMember | examples/app/downloads/downloads.py:160 | a value occurs in a mapped column exactly when some row maps to it |
| Sequences.MapMultiplicity | examples/app/downloads/downloads.py:160-161 | a value occurs in a mapped column as often as there are rows that map to it |
| Grouping.CountByTallies | examples/app/downloads/downloads.py:161 | `groupby(...).size()` is strictly ascending by key, every size is at least 1, the sizes add up to the number of rows, each key's size is its multiplicity, and the keys are exactly the values that occur |
| Grouping.CountByEntries | examples/app/downloads/downloads.py:161 | each group's size equals its key's multiplicity in the column and is at least 1 |
| Grouping.TallyUnique | examples/app/downloads/downloads.py:161 | an ascending tally with no empty group is determined by its per-key counts, so `CountBy`'s result is the only one its contract allows |
| Text.StrLessIsStrictTotalOrder | examples/app/downloads/downloads.py:22 | the ordering `sorted` uses on strings is irreflexive, transitive and total |
| Text.NatToString | examples/app/downloads/downloads.py:84 | `str(hour)` is a non-empty run of decimal digits with no leading zero |
| Text.DecimalRoundTrip | examples/app/downloads/downloads.py:84 | reading back the digits of `str(n)` gives `n` |
| Text.NatToStringInjective | examples/app/downloads/downloads.py:84 | distinct hours have distinct labels |
| Calendar.DaysInMonth | examples/app/downloads/downloads.py:156 | every month has 28 to 31 days; 28 exactly for February of a common year, 29 exactly for February of a leap year, and 30 exactly for April, June, September and November, as `datetime.date` accepts |
| Calendar.DateLessIsStrictTotalOrder | examples/app/downloads/downloads.py:161 | chronological order of dates is a strict total order, so the time series has one well-defined ascending index |
| Calendar.AgainstMidnight | examples/app/downloads/downloads.py:138-139 | comparing a timestamp with a date compares it with the date's midnight: `>=` holds exactly from that date on, `<=` exactly before it or at 00:00:00 on it |
| Calendar.Earliest | examples/app/downloads/downloads.py:26 | `date.min()` is one of the timestamps and none is earlier |
| Calendar.Latest | examples/app/downloads/downloads.py:27 | `date.max()` is one of the timestamps and none is later |
| Calendar.Bucket | examples/app/downloads/downloads.py:154-158 | the daily, monthly and yearly maps keep the year, give a valid date, and never move a date forward |
| Calendar.SameBucket | examples/app/downloads/downloads.py:154-158 | two dates share a bucket exactly when they agree on day, on year and month, or on year |
| Calendar.BucketIsPeriodStart | examples/app/downloads/downloads.py:154-158 | bucketing is idempotent and a bucket is the earliest valid date that falls into it |
| Calendar.BucketMonotone | examples/app/downloads/downloads.py:154-158 | bucketing preserves chronological order |
| Installers.DateBoundsReading | examples/app/downloads/downloads.py:138-139 | the start condition keeps rows dated on or after `start`; the end condition keeps rows dated before `end`, and rows on `end` only at 00:00:00 |
| Installers.Options | examples/app/downloads/downloads.py:22-25 | a category control's options start with `All` |
| Installers.OptionsAreSortedDistinctValues | examples/app/downloads/downloads.py:22-25 | after `All`, the options are strictly ascending and are exactly the values of the column |
| Installers.DefaultsSpan | examples/app/downloads/downloads.py:22-27 | defaults exist exactly for a non-empty log; they are admissible, every category is `All`, the resolution is monthly, and the dates are the first and the last that occur, with every row's date between them |
| Punchcard.SlotLessIsStrictTotalOrder | examples/app/downloads/downloads.py:165 | the (hour, weekday) order of the two-key group-by is a strict total order |
| Punchcard.CellIndex | examples/app/downloads/downloads.py:84-85 | a grid cell's position is below 168 and encodes its hour as `i / 7` and its weekday as `i % 7` |
| Punchcard.GroupsFitGrid | examples/app/downloads/downloads.py:165 | ascending groups whose keys are grid cells number at most 168 |
| Punchcard.HourLabels | examples/app/downloads/downloads.py:84 | the hour label column has 168 entries |
| Punchcard.DayLabels | examples/app/downloads/downloads.py:85 | the day label column has 168 entries |
| Punchcard.LabelsAt | examples/app/downloads/downloads.py:84-85 | at position `i` the hour label is `str(i / 7)` and the day label is day name `i % 7` |
| Punchcard.LabelGrid | examples/app/downloads/downloads.py:84-85 | entry `i` of the label columns is `str(i / 7)` and day name `i % 7` |
| Punchcard.LabelsNameCell | examples/app/downloads/downloads.py:84-85 | the labels at a cell's position name that cell's hour and weekday |
| Punchcard.MaxCount | examples/app/downloads/downloads.py:166 | `counts.max()` of a non-empty column is one of its counts and bounds all of them |
| Punchcard.Percentages | examples/app/downloads/downloads.py:166 | each intensity is its count divided by the maximum, lies in (0, 1], and is 1 exactly at the maximum |
| Punchcard.PercentagesOrderAndPeak | examples/app/downloads/downloads.py:166 | normalising preserves the order of the counts in both directions, and some cell reaches 1 |
| Punchcard.DenseCountsPlaceGroups | examples/app/downloads/downloads.py:84-85 | the dense grid holds each group's count at that group's cell, and 0 at every cell no group names |
| Punchcard.DensePercentages | examples/app/downloads/downloads.py:166 | dense intensities lie in [0, 1], are all 0 for an empty grid, are count over maximum otherwise, and some cell reaches 1 |
| Aggregation.SelectionMembers | examples/app/downloads/downloads.py:136-151 | a row is selected exactly when it is in the log and meets every condition of the form, as often as the log has it |
| Aggregation.SelectionIsSubsequence | examples/app/downloads/downloads.py:136-151 | the selection keeps the log's order |
| Aggregation.WideningKeepsRows | examples/app/downloads/downloads.py:136-151 | relaxing a category to `All`, an earlier start or a later end never drops a selected row |
| Aggregation.TimeSeriesSpec | examples/app/downloads/downloads.py:153-161 | the downloads series is ascending by period; each count is the number of selected rows in that period and is at least 1; the counts add up to the selection's size; the periods are exactly those of selected rows, each a valid period start |
| Aggregation.PunchcardCountsSpec | examples/app/downloads/downloads.py:163-165 | the punchcard counts are ascending by (hour, weekday); each is the number of selected rows in that cell and is at least 1; they add up to the selection's size; the cells are exactly those of selected rows, inside the 24 x 7 grid, and at most 168 of them |
| Aggregation.PunchcardIntensities | examples/app/downloads/downloads.py:163-166 | for a non-empty selection the intensities lie in (0, 1], one per count, count over maximum, 1 exactly at the busiest cells |
| Aggregation.EndReadings | examples/app/downloads/downloads.py:139 | the timestamp reading of the end bound differs from the calendar-date reading exactly on rows of the end date after 00:00:00 |
| Aggregation.DefaultsDropLastDay | examples/app/downloads/downloads.py:27 | a one-row log at 10:00 selects nothing under the default form as written, and everything under the date reading |
| Aggregation.DefaultsSelectEverythingOnDates | examples/app/downloads/downloads.py:26-27 | with the calendar-date reading, the default form selects the whole log |
| Aggregation.SparseCountsMisaligned | examples/app/downloads/downloads.py:84-85 | one row at 10:00 on a Tuesday gives one count, which sits beside the hour-0 Monday labels of the 168-entry label columns |
| Aggregation.DensePunchcard | examples/app/downloads/downloads.py:165 | the aligned punchcard has one count per grid cell |
| Aggregation.DensePunchcardCells | examples/app/downloads/downloads.py:163-165 | cell `i` of the dense punchcard counts the selected rows at hour `i / 7` on weekday `i % 7`, aligned with the labels |
| Aggregation.DensePunchcardHoldsGroups | examples/app/downloads/downloads.py:165 | every group of the sparse counts appears in the dense grid at its cell with its count |
| Aggregation.DensePunchcardEmpty | examples/app/downloads/downloads.py:166 | an empty selection gives an all-zero grid and all-zero intensities |
| Aggregation.DensePunchcardPeak | examples/app/downloads/downloads.py:166 | a non-empty selection has a cell of intensity 1 |
| Dashboard.ColumnDataSource.constructor | examples/app/downloads/downloads.py:77-86 | a new source holds the given columns |
| Dashboard.ColumnDataSource.Update | examples/app/downloads/downloads.py:168-175 | `data.update` replaces or adds the given columns and keeps every other column |
| Dashboard.SelectRows | examples/app/downloads/downloads.py:136-151 | the chain of start, end and category filters, each category skipped at `All`, yields the form's selection |
| Dashboard.Aggregate | examples/app/downloads/downloads.py:136-166 | the downloads and punchcard columns computed from one selection of the log are exactly the form's published aggregates |
| Dashboard.CountDownloads | examples/app/downloads/downloads.py:153-161 | the bucketed dates grouped and counted give strictly ascending periods, one count per period; each count is the number of selected rows in that period and at least 1; the counts add up to the selection's size; the periods are exactly those of selected rows, each a valid period start |
| Dashboard.CountPunchcard | examples/app/downloads/downloads.py:163-166 | grouping by hour and weekday gives the punchcard counts, all at least 1, and the intensities are their normalisation |
| Dashboard.LabelColumns | examples/app/downloads/downloads.py:84-85 | the label columns have 168 entries, with hour `str(i / 7)` and day name `i % 7` at entry `i` |
| Dashboard.DownloadsApp.Create | examples/app/downloads/downloads.py:73-87 | the form starts at its defaults; the downloads source has exactly the dates and downloads columns; the punchcard source has exactly counts, percentages and the 24 x 7 labels; both hold the first aggregates and are dirty |
| Dashboard.DownloadsApp.UpdateData | examples/app/downloads/downloads.py:135-178 | each source gains its aggregates of the current form, computed from one selection; every other column, the labels included, is unchanged; the downloads source gains exactly the dates and downloads keys and the punchcard source exactly the counts and percentages keys; both are marked dirty |
| Dashboard.DownloadsApp.InputChange | examples/app/downloads/downloads.py:130-131 | after a control sets the form, both sources hold the aggregates of the new form and are dirty |

## Left out

- Loading the CSV files and converting epoch seconds (lines 13-19) is left out. A row's timestamp is given already split into calendar fields, and its day of the week is given with it; the model does not derive the weekday from the date.
- The `packages` data set (line 19) is loaded but never used by the dashboard, so it is not modelled.
- The widget specifications (lines 29-65), the plots (lines 89-90 and 96-128), the layout and session calls (lines 92-94) and the route and server start (lines 180-184) are display and server code. They are not modelled.
- `input_change`'s plot titles (lines 132-133) are display only and are not modelled.
- Dashboard.DownloadsApp.InputChange: Bokeh sets the changed form attribute before it calls the callback; the model takes the new form as an argument and assigns it itself.
- Bokeh's validation of `Enum` values is not modelled. The resolution is a datatype with three values, so the `KeyError` an unknown resolution string would raise (line 158) cannot occur.
- Dashboard.ColumnDataSource.constructor: Bokeh's initial dirty state is not modelled; a new source starts clean.
- Dashboard.DownloadsApp.Create: requires a non-empty log. With an empty log, `min()` and `max()` have no date, so the form has no defaults. `Installers.Defaults` returns `None` for that case.
- Punchcard.Percentages: exact rationals stand in for floating point. For an empty selection, `counts.max()` is NaN in pandas; the model's intensities are then simply empty, as the column is.
- Dashboard.CountPunchcard: the bounds on the intensities are stated by `Punchcard.Percentages` and `Aggregation.PunchcardIntensities` rather than repeated in this method's contract.
- Column values are modelled as Dafny sequences, not NumPy arrays or a pandas index. Column names are an enumeration of the six keys the dashboard uses, not arbitrary strings.
- The model keeps pandas' comparison of a timestamp with a date (against that date's midnight). It does not use the calendar-date reading that the end date suggests; see Findings.

## Findings

| source | as written | input that shows it | evidently intended | confidence | as-written member | corrected member |
|---|---|---|---|---|---|---|
| examples/app/downloads/downloads.py:27 | the end filter compares each row's timestamp with the end date's midnight, so rows of the end date after 00:00:00 are dropped; the default end is the latest row's date, so the default form drops that day's rows after 00:00:00 | a log with one row on 2014-05-01 at 10:00: both default dates are 2014-05-01, and the selection is empty | the end date is inclusive, so the default form selects the whole log | not executed | Aggregation.DefaultsDropLastDay | Aggregation.DefaultsSelectEverythingOnDates |
| examples/app/downloads/downloads.py:84-85 | the counts and percentages columns hold one entry per occupied (hour, weekday) cell, while the label columns always hold 168; the columns are paired by position, so the counts sit beside the wrong labels whenever an empty cell comes before an occupied cell in hour-major order | one row on Tuesday 2014-05-06 at 10:00: the single count is paired with hour "0", "Monday" | one count per grid cell, zero for empty cells, aligned with the labels | not executed | Aggregation.SparseCountsMisaligned | Aggregation.DensePunchcardCells |

`Dashboard.DownloadsApp.UpdateData` models the code as written: the timestamp end bound and the sparse counts. The corrected definitions are `Aggregation.DateSelection` and `Aggregation.DensePunchcard`, with `Punchcard.DensePercentages` for the intensities. Their intended properties are proved beside the as-written ones.
