/** What `update_data` computes from the installer log and the form: the
    selected rows, the downloads time series and the punchcard counts and
    intensities, as functions of their inputs, with the properties the
    dashboard relies on. */
module Aggregation {
  import opened Sequences
  import opened Grouping
  import opened Calendar
  import opened Installers
  import opened Punchcard
  import opened Text

  /** The rows of the log the form keeps, in log order. */
  function Selection(log: seq<Event>, f: FilterState): seq<Event> {
    Where(log, KeptBy(f))
  }

  /** A row is selected exactly when it is in the log and passes every
      condition of the form; it is selected as often as it occurs. */
  lemma SelectionMembers(log: seq<Event>, f: FilterState, e: Event)
    ensures e in Selection(log, f) <==> e in log && Kept(f, e)
    ensures multiset(Selection(log, f))[e] == if Kept(f, e) then multiset(log)[e] else 0
  {
    WhereMember(log, KeptBy(f), e);
    WhereMultiplicity(log, KeptBy(f), e);
  }

  /** The selection keeps the log's order: it is a subsequence of the log. */
  lemma SelectionIsSubsequence(log: seq<Event>, f: FilterState)
    ensures IsSubsequence(Selection(log, f), log)
  {
    WhereIsSubsequence(log, KeptBy(f));
  }

  /** Widening the form can only add rows: switching a category control
      back to `All`, moving the start earlier or the end later keeps every
      row selected before, in the same order. */
  lemma WideningKeepsRows(log: seq<Event>, f: FilterState, g: FilterState)
    requires g.installer == All || g.installer == f.installer
    requires g.platform == All || g.platform == f.platform
    requires g.arch == All || g.arch == f.arch
    requires !DateLess(f.start, g.start) && !DateLess(g.end, f.end)
    ensures IsSubsequence(Selection(log, f), Selection(log, g))
  {
    forall e | e in log && KeptBy(f)(e)
      ensures KeptBy(g)(e)
    {
      assert !TimestampLess(Midnight(g.end), Midnight(f.end));
    }
    WhereMonotone(log, KeptBy(f), KeptBy(g));
  }

  /** The bucket of a row's date at a resolution (`selected.date.map(fn)`). */
  function BucketOf(r: Resolution): Event -> Date {
    (e: Event) => Bucket(r, e.time.date)
  }

  /** The rows whose date falls in bucket `b`. */
  function InBucket(r: Resolution, b: Date): Event -> bool {
    (e: Event) => Bucket(r, e.time.date) == b
  }

  function Buckets(selected: seq<Event>, r: Resolution): seq<Date> {
    Map(selected, BucketOf(r))
  }

  /** `selected.groupby(dates).size()`: the downloads time series. */
  function TimeSeries(selected: seq<Event>, r: Resolution): seq<Tally<Date>> {
    CountBy(Buckets(selected, r), DateLess)
  }

  /** The time series has one entry per bucket some selected row falls in,
      in ascending date order; each entry counts the selected rows in its
      bucket, so none is zero, and together they count every selected row.
      For a log of real dates every key is a valid date that is its own
      bucket (a first of month for the monthly series, a first of January
      for the yearly one). */
  lemma TimeSeriesSpec(selected: seq<Event>, r: Resolution)
    ensures Ascending(TimeSeries(selected, r), DateLess)
    ensures forall i :: 0 <= i < |TimeSeries(selected, r)| ==>
      TimeSeries(selected, r)[i].count == |Where(selected, InBucket(r, TimeSeries(selected, r)[i].key))| >= 1
    ensures Total(TimeSeries(selected, r)) == |selected|
    ensures forall b :: b in Keys(TimeSeries(selected, r)) <==>
      exists e :: e in selected && Bucket(r, e.time.date) == b
    ensures ValidLog(selected) ==> forall i :: 0 <= i < |TimeSeries(selected, r)| ==>
      ValidDate(TimeSeries(selected, r)[i].key) && Bucket(r, TimeSeries(selected, r)[i].key) == TimeSeries(selected, r)[i].key
  {
    var ts, dates := TimeSeries(selected, r), Buckets(selected, r);
    DateLessIsStrictTotalOrder();
    CountByTallies(dates, DateLess);
    CountByEntries(dates, DateLess);
    forall i | 0 <= i < |ts|
      ensures ts[i].count == |Where(selected, InBucket(r, ts[i].key))|
    {
      MapMultiplicity(selected, BucketOf(r), ts[i].key, InBucket(r, ts[i].key));
    }
    forall b
      ensures b in Keys(ts) <==> exists e :: e in selected && Bucket(r, e.time.date) == b
    {
      MapMember(selected, BucketOf(r), b);
    }
    if ValidLog(selected) {
      forall i | 0 <= i < |ts|
        ensures ValidDate(ts[i].key) && Bucket(r, ts[i].key) == ts[i].key
      {
        assert ts[i].key in Keys(ts);
        MapMember(selected, BucketOf(r), ts[i].key);
        var e :| e in selected && Bucket(r, e.time.date) == ts[i].key;
        BucketIsPeriodStart(r, e.time.date, e.time.date);
      }
    }
  }

  /** A row's punchcard cell: its hour and its day of the week. */
  function SlotOf(): Event -> Slot {
    (e: Event) => Slot(e.time.hour, e.weekday)
  }

  /** The rows in cell `s`. */
  function AtSlot(s: Slot): Event -> bool {
    (e: Event) => Slot(e.time.hour, e.weekday) == s
  }

  function Slots(selected: seq<Event>): seq<Slot> {
    Map(selected, SlotOf())
  }

  /** `selected.groupby([hours, daysofweek]).size()`: the punchcard counts. */
  function PunchcardCounts(selected: seq<Event>): seq<Tally<Slot>> {
    CountBy(Slots(selected), SlotLess)
  }

  /** The punchcard counts have one entry per cell some selected row falls
      in, hour-major; each counts the selected rows in its cell, so none is
      zero, and together they count every selected row. For a log of real
      timestamps every cell lies in the 24 x 7 grid, so there are at most
      168 entries. */
  lemma PunchcardCountsSpec(selected: seq<Event>)
    ensures Ascending(PunchcardCounts(selected), SlotLess)
    ensures forall i :: 0 <= i < |PunchcardCounts(selected)| ==>
      PunchcardCounts(selected)[i].count == |Where(selected, AtSlot(PunchcardCounts(selected)[i].key))| >= 1
    ensures Total(PunchcardCounts(selected)) == |selected|
    ensures forall s :: s in Keys(PunchcardCounts(selected)) <==>
      exists e :: e in selected && Slot(e.time.hour, e.weekday) == s
    ensures ValidLog(selected) ==>
      && (forall i :: 0 <= i < |PunchcardCounts(selected)| ==> InGrid(PunchcardCounts(selected)[i].key))
      && |PunchcardCounts(selected)| <= GridSize
  {
    var pc, slots := PunchcardCounts(selected), Slots(selected);
    SlotLessIsStrictTotalOrder();
    CountByTallies(slots, SlotLess);
    CountByEntries(slots, SlotLess);
    forall i | 0 <= i < |pc|
      ensures pc[i].count == |Where(selected, AtSlot(pc[i].key))|
    {
      MapMultiplicity(selected, SlotOf(), pc[i].key, AtSlot(pc[i].key));
    }
    forall s
      ensures s in Keys(pc) <==> exists e :: e in selected && Slot(e.time.hour, e.weekday) == s
    {
      MapMember(selected, SlotOf(), s);
    }
    if ValidLog(selected) {
      forall i | 0 <= i < |pc|
        ensures InGrid(pc[i].key)
      {
        assert pc[i].key in Keys(pc);
        MapMember(selected, SlotOf(), pc[i].key);
      }
      GroupsFitGrid(pc);
    }
  }

  /** `percentages`: with at least one selected row, there is at least
      one count and none is zero; every intensity is its cell's count over
      the largest count and lies in (0, 1]; and the busiest cells are at 1. */
  lemma PunchcardIntensities(selected: seq<Event>)
    requires selected != []
    ensures |Counts(PunchcardCounts(selected))| > 0
    ensures forall i :: 0 <= i < |Counts(PunchcardCounts(selected))| ==> Counts(PunchcardCounts(selected))[i] >= 1
    ensures var counts := Counts(PunchcardCounts(selected));
      var p := Percentages(counts);
      && |p| == |counts|
      && (forall i :: 0 <= i < |p| ==> 0.0 < p[i] <= 1.0)
      && (exists i :: 0 <= i < |p| && p[i] == 1.0)
      && (forall i :: 0 <= i < |p| ==> (p[i] == 1.0 <==> counts[i] == MaxCount(counts)))
      && (forall i :: 0 <= i < |p| ==> p[i] == counts[i] as real / MaxCount(counts) as real)
  {
    var pc, slots := PunchcardCounts(selected), Slots(selected);
    SlotLessIsStrictTotalOrder();
    CountByTallies(slots, SlotLess);
    assert slots[0] in slots;
    assert |pc| > 0;
    PercentagesOrderAndPeak(Counts(pc));
  }

  // ---------------------------------------------------------------------
  // The end date, read as a calendar date.

  /** The end condition as a date comparison: the row's date is not after
      `end`. */
  predicate OnOrBeforeEndDate(end: Date, e: Event) {
    !DateLess(end, e.time.date)
  }

  /** The form's conditions with both dates read as calendar dates. */
  predicate KeptOnDates(f: FilterState, e: Event) {
    && OnOrAfterStart(f.start, e)
    && OnOrBeforeEndDate(f.end, e)
    && Matches(f.installer, e.event)
    && Matches(f.platform, e.platform)
    && Matches(f.arch, e.arch)
  }

  function KeptOnDatesBy(f: FilterState): Event -> bool {
    (e: Event) => KeptOnDates(f, e)
  }

  /** The selection with an inclusive end date. */
  function DateSelection(log: seq<Event>, f: FilterState): seq<Event> {
    Where(log, KeptOnDatesBy(f))
  }

  /** The two readings differ exactly on the rows of the end date after
      00:00:00, which only the date reading keeps. */
  lemma EndReadings(log: seq<Event>, f: FilterState, e: Event)
    requires ValidEvent(e)
    ensures Kept(f, e) <==> KeptOnDates(f, e) && (e.time.date == f.end ==> AtMidnight(e.time))
    ensures IsSubsequence(Selection(log, f), DateSelection(log, f))
  {
    DateBoundsReading(f, e);
    forall x | x in log && KeptBy(f)(x)
      ensures KeptOnDatesBy(f)(x)
    {
    }
    WhereMonotone(log, KeptBy(f), KeptOnDatesBy(f));
  }

  /** With the form's defaults and the date reading, every row of the log
      is selected. */
  lemma DefaultsSelectEverythingOnDates(log: seq<Event>)
    requires ValidLog(log) && log != []
    ensures DateSelection(log, Defaults(log).value) == log
  {
    DefaultsSpan(log);
    var f := Defaults(log).value;
    forall e | e in log
      ensures KeptOnDatesBy(f)(e)
    {
      DateBoundsReading(f, e);
    }
    WhereAll(log, KeptOnDatesBy(f));
  }

  /** As written, the defaults drop the latest day's rows after 00:00:00:
      a log whose only row is at 10:00 has that row's date as both default
      dates, and the timestamp comparison against the end date's midnight
      rejects it. */
  lemma DefaultsDropLastDay()
    ensures var log := [Event(Timestamp(Date(2014, 5, 1), 10, 0, 0), 3, "anaconda", "linux", "x86_64")];
      && Defaults(log).Some?
      && Selection(log, Defaults(log).value) == []
      && DateSelection(log, Defaults(log).value) == log
  {
    var e := Event(Timestamp(Date(2014, 5, 1), 10, 0, 0), 3, "anaconda", "linux", "x86_64");
    var log := [e];
    var f := Defaults(log).value;
    assert Times(log) == [e.time];
    assert f.start == f.end == Date(2014, 5, 1);
    assert !Kept(f, e);
    assert Where(log, KeptBy(f)) == [] + Where(log[1..], KeptBy(f));
    assert KeptOnDates(f, e);
  }

  // ---------------------------------------------------------------------
  // The punchcard counts against the label grid.

  /** As written, the counts column only has the cells that occur, while
      the label columns always have 168 entries: with a single row at
      10:00 on a Tuesday, the one count is the first entry of its column,
      which sits beside the labels of hour 0 on Monday. */
  lemma SparseCountsMisaligned()
    ensures var e := Event(Timestamp(Date(2014, 5, 6), 10, 0, 0), 1, "anaconda", "linux", "x86_64");
      && PunchcardCounts([e]) == [Tally(Slot(10, 1), 1)]
      && |Counts(PunchcardCounts([e]))| == 1 < |HourLabels()| == |DayLabels()|
      && HourLabels()[0] == "0" && DayLabels()[0] == "Monday"
  {
    var e := Event(Timestamp(Date(2014, 5, 6), 10, 0, 0), 1, "anaconda", "linux", "x86_64");
    assert Slots([e]) == [Slot(10, 1)];
    assert [Slot(10, 1)][..0] == [];
    LabelGrid();
    assert NatToString(0) == "0";
  }

  /** The punchcard as a dense 168-cell grid, aligned with the labels. */
  function DensePunchcard(selected: seq<Event>): (d: seq<nat>)
    ensures |d| == GridSize
  {
    DenseCounts(PunchcardCounts(selected))
  }

  /** Cell i of the dense grid counts the selected rows at hour i / 7 on
      weekday i % 7, which are the hour and the day its labels name. */
  lemma DensePunchcardCells(selected: seq<Event>)
    ensures forall i :: 0 <= i < GridSize ==>
      && DensePunchcard(selected)[i] == |Where(selected, AtSlot(CellAt(i)))|
      && HourLabels()[i] == NatToString(i / 7) && DayLabels()[i] == DayNames[i % 7]
  {
    var d := DensePunchcard(selected);
    SlotLessIsStrictTotalOrder();
    CountByTallies(Slots(selected), SlotLess);
    LabelGrid();
    forall i | 0 <= i < GridSize
      ensures d[i] == |Where(selected, AtSlot(CellAt(i)))|
    {
      MapMultiplicity(selected, SlotOf(), CellAt(i), AtSlot(CellAt(i)));
    }
  }

  /** Every group of the sparse counts is a grid cell and reappears at that
      cell's position of the dense grid. */
  lemma DensePunchcardHoldsGroups(selected: seq<Event>)
    requires ValidLog(selected)
    ensures forall k :: 0 <= k < |PunchcardCounts(selected)| ==> InGrid(PunchcardCounts(selected)[k].key)
    ensures forall k :: 0 <= k < |PunchcardCounts(selected)| ==>
      DensePunchcard(selected)[CellIndex(PunchcardCounts(selected)[k].key)] == PunchcardCounts(selected)[k].count
  {
    PunchcardCountsSpec(selected);
    DenseCountsPlaceGroups(PunchcardCounts(selected));
  }

  /** With nothing selected every dense cell and intensity is 0. */
  lemma DensePunchcardEmpty()
    ensures forall i :: 0 <= i < GridSize ==>
      DensePunchcard([])[i] == 0 && DensePercentages(DensePunchcard([]))[i] == 0.0
  {
    var d := DensePunchcard([]);
    assert PunchcardCounts([]) == [];
    assert forall i :: 0 <= i < GridSize ==> d[i] == 0;
    assert MaxCount(d) == 0;
  }

  /** With something selected some dense cell is at full intensity. */
  lemma DensePunchcardPeak(selected: seq<Event>)
    requires ValidLog(selected) && selected != []
    ensures exists i :: 0 <= i < GridSize && DensePercentages(DensePunchcard(selected))[i] == 1.0
  {
    var slots := Slots(selected);
    var s := slots[0];
    assert InGrid(s) by {
      assert selected[0] in selected;
    }
    assert CountOf(PunchcardCounts(selected), s) >= 1 by {
      SlotLessIsStrictTotalOrder();
      CountByTallies(slots, SlotLess);
      assert s in slots;
    }
    DenseCountsOccupied(PunchcardCounts(selected), s);
    var p := DensePercentages(DensePunchcard(selected));
    var k :| 0 <= k < |p| && p[k] == 1.0;
    assert 0 <= k < GridSize;
  }
}
