/** The dashboard object: its two column data sources, the filter form's
    current values, and `update_data`, which narrows the log step by step
    and publishes both aggregates to the sources. */
module Dashboard {
  import opened Sequences
  import opened Grouping
  import opened Calendar
  import opened Installers
  import opened Punchcard
  import opened Aggregation
  import opened Text

  /** The names of the columns the dashboard's two sources hold: the keys
      "dates", "downloads", "counts", "percentages", "hours" and "days". */
  datatype ColumnName = DatesColumn | DownloadsColumn | CountsColumn | PercentagesColumn | HoursColumn | DaysColumn

  /** The values of a column of a data source. */
  datatype Column =
    | DateValues(dates: seq<Date>)
    | CountValues(counts: seq<nat>)
    | RealValues(reals: seq<real>)
    | LabelValues(labels: seq<string>)

  /** A `ColumnDataSource`: named columns, and the flag that marks its data
      as changed since the browser last received it. */
  class ColumnDataSource {
    var data: map<ColumnName, Column>
    var dirty: bool

    constructor (data: map<ColumnName, Column>)
      ensures this.data == data && !dirty
    {
      this.data := data;
      dirty := false;
    }

    /** `data.update(columns)`: each given column replaces the column of
        that name, or is added; every other column stays as it was. */
    method Update(columns: map<ColumnName, Column>)
      modifies this`data
      ensures data == old(data) + columns
    {
      data := data + columns;
    }
  }

  /** The conditions of the filter chain in force after each of its steps:
      the two date bounds, then the installer, platform and architecture
      categories in turn. */
  function DatesMask(f: FilterState): Event -> bool {
    (e: Event) => OnOrAfterStart(f.start, e) && OnOrBeforeEnd(f.end, e)
  }

  function InstallerMask(f: FilterState): Event -> bool {
    (e: Event) => DatesMask(f)(e) && Matches(f.installer, e.event)
  }

  function PlatformMask(f: FilterState): Event -> bool {
    (e: Event) => InstallerMask(f)(e) && Matches(f.platform, e.platform)
  }

  /** The filter chain of `update_data`: starting from the whole log, each
      date bound narrows the rows, and each category control that is not
      `All` narrows them once more. The result is the selection the form
      defines. */
  method SelectRows(log: seq<Event>, f: FilterState) returns (selected: seq<Event>)
    ensures selected == Selection(log, f)
  {
    selected := log;
    var start, end := f.start, f.end;
    var afterStart := (e: Event) => OnOrAfterStart(start, e);
    selected := Where(selected, afterStart);
    var beforeEnd := (e: Event) => OnOrBeforeEnd(end, e);
    selected := Where(selected, beforeEnd);
    WhereWhere(log, afterStart, beforeEnd, DatesMask(f));

    var installer := f.installer;
    if installer != All {
      var isInstaller := (e: Event) => e.event == installer;
      selected := Where(selected, isInstaller);
      WhereWhere(log, DatesMask(f), isInstaller, InstallerMask(f));
    } else {
      WhereCongruent(log, DatesMask(f), InstallerMask(f));
    }

    var platform := f.platform;
    if platform != All {
      var isPlatform := (e: Event) => e.platform == platform;
      selected := Where(selected, isPlatform);
      WhereWhere(log, InstallerMask(f), isPlatform, PlatformMask(f));
    } else {
      WhereCongruent(log, InstallerMask(f), PlatformMask(f));
    }

    var arch := f.arch;
    if arch != All {
      var isArch := (e: Event) => e.arch == arch;
      selected := Where(selected, isArch);
      WhereWhere(log, PlatformMask(f), isArch, KeptBy(f));
    } else {
      WhereCongruent(log, PlatformMask(f), KeptBy(f));
    }
  }

  /** Every punchcard group is non-empty, so the counts can be normalised. */
  lemma PunchcardCountsPositive(selected: seq<Event>, counts: seq<nat>)
    requires counts == Counts(PunchcardCounts(selected))
    ensures forall i :: 0 <= i < |counts| ==> counts[i] >= 1
  {
    PunchcardCountsSpec(selected);
  }

  /** The downloads half of `update_data`'s aggregation: each selected row's
      date moved to the start of its resolution period, then counted per
      period. The periods come out strictly ascending, each exactly once;
      each count is the number of selected rows in that period, never 0;
      the counts add up to the selection's size; and the periods are exactly
      those of the selected rows, each the start of its own period. */
  method CountDownloads(selected: seq<Event>, r: Resolution) returns (dates: seq<Date>, downloads: seq<nat>)
    ensures dates == Keys(TimeSeries(selected, r)) && downloads == Counts(TimeSeries(selected, r))
    ensures |dates| == |downloads|
    ensures forall i, j :: 0 <= i < j < |dates| ==> DateLess(dates[i], dates[j])
    ensures forall i :: 0 <= i < |dates| ==> downloads[i] == |Where(selected, InBucket(r, dates[i]))| >= 1
    ensures Sum(downloads) == |selected|
    ensures forall b :: b in dates <==> exists e :: e in selected && Bucket(r, e.time.date) == b
    ensures ValidLog(selected) ==> forall i :: 0 <= i < |dates| ==> ValidDate(dates[i]) && Bucket(r, dates[i]) == dates[i]
  {
    var series := CountBy(Map(selected, BucketOf(r)), DateLess);
    dates, downloads := Keys(series), Counts(series);
    TimeSeriesSpec(selected, r);
  }

  /** The punchcard half: the selected rows grouped by hour of day and day
      of week and counted per cell, and each cell's share of the busiest
      cell. */
  method CountPunchcard(selected: seq<Event>) returns (counts: seq<nat>, percentages: seq<real>)
    ensures counts == Counts(PunchcardCounts(selected))
    ensures forall i :: 0 <= i < |counts| ==> counts[i] >= 1
    ensures percentages == Percentages(counts)
  {
    var hours := Map(selected, (e: Event) => e.time.hour);
    var daysofweek := Map(selected, (e: Event) => e.weekday);
    var cells := seq(|selected|, i requires 0 <= i < |selected| => Slot(hours[i], daysofweek[i]));
    CellsAreSlots(selected, hours, daysofweek);
    counts := Counts(CountBy(cells, SlotLess));
    PunchcardCountsPositive(selected, counts);
    percentages := Percentages(counts);
  }

  /** Pairing the hour column with the weekday column row by row gives each
      row's punchcard cell. */
  lemma CellsAreSlots(selected: seq<Event>, hours: seq<int>, daysofweek: seq<int>)
    requires hours == Map(selected, (e: Event) => e.time.hour)
    requires daysofweek == Map(selected, (e: Event) => e.weekday)
    ensures seq(|selected|, i requires 0 <= i < |selected| => Slot(hours[i], daysofweek[i])) == Slots(selected)
  {
  }

  /** The punchcard's label columns: cell `i` of the 24 x 7 grid is hour
      `i / 7` of day `i % 7`. */
  method LabelColumns() returns (hours: seq<string>, days: seq<string>)
    ensures |hours| == GridSize && |days| == GridSize
    ensures forall i :: 0 <= i < GridSize ==> hours[i] == NatToString(i / 7) && days[i] == DayNames[i % 7]
  {
    hours, days := HourLabels(), DayLabels();
    LabelGrid();
  }

  /** The downloads columns `update_data` publishes for a log and a form:
      the time series' dates and counts. */
  function DownloadsColumns(log: seq<Event>, f: FilterState): map<ColumnName, Column> {
    var series := TimeSeries(Selection(log, f), f.resolution);
    map[DatesColumn := DateValues(Keys(series)), DownloadsColumn := CountValues(Counts(series))]
  }

  /** The punchcard columns `update_data` publishes for a log and a form:
      the cell counts and their intensities. */
  function PunchcardColumns(log: seq<Event>, f: FilterState): map<ColumnName, Column> {
    var counts := Counts(PunchcardCounts(Selection(log, f)));
    PunchcardCountsPositive(Selection(log, f), counts);
    map[CountsColumn := CountValues(counts), PercentagesColumn := RealValues(Percentages(counts))]
  }

  /** The computing half of `update_data`: narrows the log by the form,
      then counts the selection per period and per punchcard cell. Both
      results are computed from the same selection. */
  method Aggregate(log: seq<Event>, f: FilterState) returns (downloadsColumns: map<ColumnName, Column>, punchcardColumns: map<ColumnName, Column>)
    ensures downloadsColumns == DownloadsColumns(log, f)
    ensures punchcardColumns == PunchcardColumns(log, f)
  {
    var selected := SelectRows(log, f);
    var dates, downloads := CountDownloads(selected, f.resolution);
    var counts, percentages := CountPunchcard(selected);
    downloadsColumns := map[DatesColumn := DateValues(dates), DownloadsColumn := CountValues(downloads)];
    punchcardColumns := map[CountsColumn := CountValues(counts), PercentagesColumn := RealValues(percentages)];
  }

  /** `update_data` writes exactly the dates and downloads columns to one
      source and the counts and percentages columns to the other. */
  lemma ColumnKeys(log: seq<Event>, f: FilterState)
    ensures DownloadsColumns(log, f).Keys == {DatesColumn, DownloadsColumn}
    ensures PunchcardColumns(log, f).Keys == {CountsColumn, PercentagesColumn}
  {
  }

  /** Every column of `columns` is present in `data` with that content. */
  ghost predicate Holds(data: map<ColumnName, Column>, columns: map<ColumnName, Column>) {
    forall name :: name in columns ==> name in data && data[name] == columns[name]
  }

  class DownloadsApp {
    /** The installer log, loaded once and never changed. */
    const installers: seq<Event>
    /** The form's current values. */
    var form: FilterState
    const downloadsSource: ColumnDataSource
    const punchcardSource: ColumnDataSource
    /** The punchcard's hour and day label columns, fixed at creation. */
    const hourLabels: seq<string>
    const dayLabels: seq<string>

    /** The log has real timestamps, the sources are two objects, and the
        punchcard source keeps its 24 x 7 label columns. */
    ghost predicate Valid()
      reads this, punchcardSource
    {
      && ValidLog(installers)
      && downloadsSource != punchcardSource
      && HoursColumn in punchcardSource.data && punchcardSource.data[HoursColumn] == LabelValues(hourLabels)
      && DaysColumn in punchcardSource.data && punchcardSource.data[DaysColumn] == LabelValues(dayLabels)
    }

    /** Both sources hold the aggregates of the current form, computed from
        one selection, and are marked dirty. */
    ghost predicate Published()
      reads this, downloadsSource, punchcardSource
    {
      && Holds(downloadsSource.data, DownloadsColumns(installers, form))
      && Holds(punchcardSource.data, PunchcardColumns(installers, form))
      && downloadsSource.dirty && punchcardSource.dirty
    }

    /** `create`: the form at its defaults, a downloads source with empty
        columns, a punchcard source with empty counts beside the label
        grid, then a first `update_data`. */
    constructor Create(log: seq<Event>)
      requires ValidLog(log) && log != []
      ensures installers == log && Defaults(log) == Some(form)
      ensures |hourLabels| == GridSize && |dayLabels| == GridSize
      ensures forall i :: 0 <= i < GridSize ==> hourLabels[i] == NatToString(i / 7) && dayLabels[i] == DayNames[i % 7]
      ensures Valid() && Published()
      ensures downloadsSource.data.Keys == {DatesColumn, DownloadsColumn}
      ensures punchcardSource.data.Keys == {CountsColumn, PercentagesColumn, HoursColumn, DaysColumn}
    {
      installers := log;
      var defaults := Defaults(log);
      form := defaults.value;
      var hours, days := LabelColumns();
      hourLabels, dayLabels := hours, days;
      downloadsSource := new ColumnDataSource(map[DatesColumn := DateValues([]), DownloadsColumn := CountValues([])]);
      punchcardSource := new ColumnDataSource(map[
        CountsColumn := CountValues([]),
        PercentagesColumn := RealValues([]),
        HoursColumn := LabelValues(hours),
        DaysColumn := LabelValues(days)]);
      new;
      UpdateData();
    }

    /** `update_data`: narrows the log by the form one condition at a time,
        buckets and counts the selection, counts it per punchcard cell,
        normalises those counts, writes both results into the sources and
        marks both dirty. Every other column, the label grid included, is
        left as it was. */
    method UpdateData()
      requires Valid()
      modifies downloadsSource, punchcardSource
      ensures Valid() && Published()
      ensures downloadsSource.data == old(downloadsSource.data) + DownloadsColumns(installers, form)
      ensures punchcardSource.data == old(punchcardSource.data) + PunchcardColumns(installers, form)
      ensures downloadsSource.data.Keys == old(downloadsSource.data.Keys) + {DatesColumn, DownloadsColumn}
      ensures punchcardSource.data.Keys == old(punchcardSource.data.Keys) + {CountsColumn, PercentagesColumn}
    {
      var downloadsColumns, punchcardColumns := Aggregate(installers, form);
      ColumnKeys(installers, form);
      downloadsSource.Update(downloadsColumns);
      punchcardSource.Update(punchcardColumns);

      downloadsSource.dirty := true;
      punchcardSource.dirty := true;
    }

    /** `input_change`: a control has set the form to `f`; the dashboard
        recomputes from it. */
    method InputChange(f: FilterState)
      requires Valid()
      modifies this`form, downloadsSource, punchcardSource
      ensures form == f && Valid() && Published()
      ensures downloadsSource.data == old(downloadsSource.data) + DownloadsColumns(installers, f)
      ensures punchcardSource.data == old(punchcardSource.data) + PunchcardColumns(installers, f)
    {
      form := f;
      UpdateData();
    }
  }
}
