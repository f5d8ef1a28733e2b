/** The installer log's rows and the filter form over them
    (`InstallersModel`): which values each control offers, what it starts
    at, and which rows each filter condition keeps. */
module Installers {
  import opened Calendar
  import opened Grouping
  import opened Sequences
  import opened Text

  datatype Option<T> = None | Some(value: T)

  /** One row of the installer log. `time` is the row's epoch seconds as a
      calendar timestamp; `weekday` is its day of the week, Monday = 0 to
      Sunday = 6; `event` names the installer. */
  datatype Event = Event(time: Timestamp, weekday: int, event: string, platform: string, arch: string)

  predicate ValidEvent(e: Event) {
    ValidTimestamp(e.time) && 0 <= e.weekday < 7
  }

  /** Every row of the log carries a real timestamp and weekday. */
  predicate ValidLog(log: seq<Event>) {
    forall e :: e in log ==> ValidEvent(e)
  }

  /** The value of a category control that switches its filter off. */
  const All: string := "All"

  /** The form's current values: three category controls, the resolution
      and the two date pickers. */
  datatype FilterState = FilterState(
    installer: string,
    resolution: Resolution,
    platform: string,
    arch: string,
    start: Date,
    end: Date)

  /** `selected.date >= start`: the row's timestamp is not before the start
      date's midnight. */
  predicate OnOrAfterStart(start: Date, e: Event) {
    !TimestampLess(e.time, Midnight(start))
  }

  /** `selected.date <= end`: the row's timestamp is not after the end
      date's midnight. */
  predicate OnOrBeforeEnd(end: Date, e: Event) {
    !TimestampLess(Midnight(end), e.time)
  }

  /** A category condition: `All` passes every row, any other value only
      the rows whose field equals it. */
  predicate Matches(value: string, field: string) {
    value == All || field == value
  }

  /** The conjunction of every condition the form imposes on a row. */
  predicate Kept(f: FilterState, e: Event) {
    && OnOrAfterStart(f.start, e)
    && OnOrBeforeEnd(f.end, e)
    && Matches(f.installer, e.event)
    && Matches(f.platform, e.platform)
    && Matches(f.arch, e.arch)
  }

  /** `Kept(f, _)` as one mask, so that every use names the same function. */
  function KeptBy(f: FilterState): Event -> bool {
    e => Kept(f, e)
  }

  /** Read in calendar terms, the date conditions keep a row exactly when
      its date is on or after `start` and before `end`, or on `end` at
      00:00:00 sharp. */
  lemma DateBoundsReading(f: FilterState, e: Event)
    requires ValidEvent(e)
    ensures OnOrAfterStart(f.start, e) <==> !DateLess(e.time.date, f.start)
    ensures OnOrBeforeEnd(f.end, e) <==>
      DateLess(e.time.date, f.end) || (e.time.date == f.end && AtMidnight(e.time))
  {
    AgainstMidnight(e.time, f.start);
    AgainstMidnight(e.time, f.end);
  }

  function InstallerColumn(log: seq<Event>): seq<string> {
    Map(log, (e: Event) => e.event)
  }

  function PlatformColumn(log: seq<Event>): seq<string> {
    Map(log, (e: Event) => e.platform)
  }

  function ArchColumn(log: seq<Event>): seq<string> {
    Map(log, (e: Event) => e.arch)
  }

  function Times(log: seq<Event>): seq<Timestamp> {
    Map(log, (e: Event) => e.time)
  }

  /** `sorted(column.unique())`: the distinct values in ascending order. */
  function SortedDistinct(column: seq<string>): seq<string> {
    Keys(CountBy(column, StrLess))
  }

  /** The values a category control offers: `All`, then the column's
      distinct values in ascending order. */
  function Options(column: seq<string>): (o: seq<string>)
    ensures |o| >= 1 && o[0] == All
  {
    [All] + SortedDistinct(column)
  }

  /** After `All`, the options are strictly ascending (so without
      repetition) and are exactly the values that occur in the column. */
  lemma OptionsAreSortedDistinctValues(column: seq<string>)
    ensures forall i, j :: 1 <= i < j < |Options(column)| ==> StrLess(Options(column)[i], Options(column)[j])
    ensures forall v :: v in column <==> v in Options(column)[1..]
  {
    StrLessIsStrictTotalOrder();
    CountByTallies(column, StrLess);
    var o := Options(column);
    assert o[1..] == Keys(CountBy(column, StrLess));
  }

  /** The choices of the resolution control, and its default. */
  const ResolutionOptions: seq<Resolution> := [Daily, Monthly, Yearly]
  const DefaultResolution: Resolution := Monthly

  /** The form's initial values: every category at `All`, monthly
      resolution, and the dates of the log's earliest and latest rows. An
      empty log has no such dates, and so no defaults. */
  function Defaults(log: seq<Event>): Option<FilterState> {
    if log == [] then None
    else Some(FilterState(All, DefaultResolution, All, All, Earliest(Times(log)).date, Latest(Times(log)).date))
  }

  /** A form state whose every control holds one of its offered values. */
  predicate Admissible(log: seq<Event>, f: FilterState) {
    && f.installer in Options(InstallerColumn(log))
    && f.resolution in ResolutionOptions
    && f.platform in Options(PlatformColumn(log))
    && f.arch in Options(ArchColumn(log))
  }

  /** The defaults exist exactly for a non-empty log; they are admissible,
      switch every category filter off, and their dates are the earliest
      and the latest date that occur in the log, so every row's date lies
      between them. */
  lemma DefaultsSpan(log: seq<Event>)
    ensures Defaults(log).Some? <==> log != []
    ensures Defaults(log).Some? ==>
      var f := Defaults(log).value;
      && Admissible(log, f)
      && f.installer == All && f.platform == All && f.arch == All && f.resolution == Monthly
      && (exists e :: e in log && e.time.date == f.start)
      && (exists e :: e in log && e.time.date == f.end)
      && (forall e :: e in log ==> !DateLess(e.time.date, f.start) && !DateLess(f.end, e.time.date))
  {
    if log != [] {
      var f := Defaults(log).value;
      var ts := Times(log);
      var first, last := Earliest(ts), Latest(ts);
      var i :| 0 <= i < |ts| && ts[i] == first;
      assert log[i] in log && log[i].time.date == f.start;
      var j :| 0 <= j < |ts| && ts[j] == last;
      assert log[j] in log && log[j].time.date == f.end;
      forall e | e in log
        ensures !DateLess(e.time.date, f.start) && !DateLess(f.end, e.time.date)
      {
        var k :| 0 <= k < |log| && log[k] == e;
        assert ts[k] in ts;
      }
    }
  }
}
