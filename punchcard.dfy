/** The hour-of-week punchcard: its cells, the fixed 24 x 7 label grid its
    column source is created with, and the normalisation of cell counts by
    the largest count. */
module Punchcard {
  import opened Grouping
  import opened Text

  /** A punchcard cell: an hour of the day and a day of the week (Monday =
      0 to Sunday = 6). */
  datatype Slot = Slot(hour: int, weekday: int)

  /** The order of `groupby([hours, daysofweek])`: by hour, then by day. */
  predicate SlotLess(a: Slot, b: Slot) {
    a.hour < b.hour || (a.hour == b.hour && a.weekday < b.weekday)
  }

  lemma SlotLessIsStrictTotalOrder()
    ensures StrictTotalOrder(SlotLess)
  {
  }

  predicate InGrid(s: Slot) {
    0 <= s.hour < 24 && 0 <= s.weekday < 7
  }

  const GridSize: nat := 24 * 7

  /** Where a cell sits in the hour-major label grid. */
  function CellIndex(s: Slot): (i: nat)
    requires InGrid(s)
    ensures i < GridSize && i / 7 == s.hour && i % 7 == s.weekday
  {
    s.hour * 7 + s.weekday
  }

  /** The cell at a position of the label grid. */
  function CellAt(i: nat): (s: Slot)
    requires i < GridSize
    ensures InGrid(s) && CellIndex(s) == i
  {
    Slot(i / 7, i % 7)
  }

  /** Grid positions follow the group-by order of cells. */
  lemma CellIndexMonotone(a: Slot, b: Slot)
    requires InGrid(a) && InGrid(b)
    ensures SlotLess(a, b) <==> CellIndex(a) < CellIndex(b)
  {
  }

  /** Strictly increasing integers within [lo, hi) number at most hi - lo. */
  lemma {:induction false} IncreasingFits(xs: seq<int>, lo: int, hi: int)
    requires lo <= hi
    requires forall i, j :: 0 <= i < j < |xs| ==> xs[i] < xs[j]
    requires forall i :: 0 <= i < |xs| ==> lo <= xs[i] < hi
    ensures |xs| <= hi - lo
  {
    if xs != [] {
      IncreasingFits(xs[1..], xs[0] + 1, hi);
    }
  }

  /** An ascending tally of grid cells has at most one group per cell. */
  lemma GroupsFitGrid(g: seq<Tally<Slot>>)
    requires Ascending(g, SlotLess)
    requires forall k :: 0 <= k < |g| ==> InGrid(g[k].key)
    ensures |g| <= GridSize
  {
    var xs := seq(|g|, k requires 0 <= k < |g| => CellIndex(g[k].key) as int);
    forall i, j | 0 <= i < j < |xs|
      ensures xs[i] < xs[j]
    {
      CellIndexMonotone(g[i].key, g[j].key);
    }
    IncreasingFits(xs, 0, GridSize);
  }

  const DayNames: seq<string> := ["Monday", "Tuesday", "Wednesday", "Thursday", "Friday", "Saturday", "Sunday"]

  function Repeat<T>(x: T, n: nat): (r: seq<T>)
    ensures |r| == n
    ensures forall i :: 0 <= i < n ==> r[i] == x
  {
    if n == 0 then [] else [x] + Repeat(x, n - 1)
  }

  /** `[name(h)] * 7` for every hour h from `from` below `to`, concatenated. */
  function HourBlocks<T>(name: nat -> T, from: nat, to: nat): (r: seq<T>)
    ensures from <= to ==> |r| == 7 * (to - from)
    decreases (to as int) - (from as int)
  {
    if from >= to then [] else Repeat(name(from), 7) + HourBlocks(name, from + 1, to)
  }

  /** `n` copies of `s`, concatenated (`s * n`). */
  function Cycle<T>(s: seq<T>, n: nat): (r: seq<T>)
    ensures |r| == n * |s|
  {
    if n == 0 then [] else s + Cycle(s, n - 1)
  }

  /** The `hours` label column: each hour's name seven times, hour 0 first. */
  function HourLabels(): (h: seq<string>)
    ensures |h| == GridSize
  {
    HourBlocks(NatToString, 0, 24)
  }

  /** The `days` label column: the week, Monday first, 24 times over. */
  function DayLabels(): (d: seq<string>)
    ensures |d| == GridSize
  {
    Cycle(DayNames, 24)
  }

  /** Position `i` of the grid is entry `i % 7` of block `i / 7`. */
  lemma BlockAndOffset(i: int)
    requires 0 <= i < GridSize
    ensures 0 <= i / 7 < 24 && 0 <= i % 7 < 7 && i == 7 * (i / 7) + i % 7
  {
  }

  /** Entry `j` of block `b` is the name of hour `from + b`. */
  lemma {:induction false} HourBlocksAt<T>(name: nat -> T, from: nat, to: nat, b: nat, j: nat)
    requires from + b < to && j < 7
    ensures HourBlocks(name, from, to)[7 * b + j] == name(from + b)
    decreases b
  {
    var head, tail := Repeat(name(from), 7), HourBlocks(name, from + 1, to);
    assert HourBlocks(name, from, to) == head + tail;
    if b == 0 {
      assert (head + tail)[j] == head[j];
    } else {
      HourBlocksAt(name, from + 1, to, b - 1, j);
      var k := 7 * (b - 1) + j;
      assert 7 * b + j == 7 + k;
      assert (head + tail)[7 + k] == tail[k];
    }
  }

  lemma {:induction false} CycleAt<T>(s: seq<T>, n: nat, i: int)
    requires |s| == 7 && 0 <= i < 7 * n
    ensures Cycle(s, n)[i] == s[i % 7]
  {
    if 7 <= i {
      CycleAt(s, n - 1, i - 7);
      assert (i - 7) % 7 == i % 7;
    }
  }

  lemma HourLabelAt(i: int)
    requires 0 <= i < GridSize
    ensures HourLabels()[i] == NatToString(i / 7)
  {
    var b, j := i / 7, i % 7;
    BlockAndOffset(i);
    HourBlocksAt(NatToString, 0, 24, b, j);
  }

  lemma DayLabelAt(i: int)
    requires 0 <= i < GridSize
    ensures DayLabels()[i] == DayNames[i % 7]
  {
    CycleAt(DayNames, 24, i);
  }

  /** Entry i of the label columns names hour i / 7 and day `DayNames[i % 7]`. */
  lemma LabelsAt(i: int)
    requires 0 <= i < GridSize
    ensures HourLabels()[i] == NatToString(i / 7)
    ensures DayLabels()[i] == DayNames[i % 7]
  {
    HourLabelAt(i);
    DayLabelAt(i);
  }

  /** The two label columns have one entry per cell; entry i names hour
      i / 7 and day `DayNames[i % 7]`, so the grid is hour-major. */
  lemma LabelGrid()
    ensures forall i :: 0 <= i < GridSize ==>
      HourLabels()[i] == NatToString(i / 7) && DayLabels()[i] == DayNames[i % 7]
  {
    forall i | 0 <= i < GridSize
      ensures HourLabels()[i] == NatToString(i / 7) && DayLabels()[i] == DayNames[i % 7]
    {
      LabelsAt(i);
    }
  }

  /** The label pair at a cell's grid position names exactly that cell. */
  lemma LabelsNameCell(s: Slot)
    requires InGrid(s)
    ensures HourLabels()[CellIndex(s)] == NatToString(s.hour)
    ensures DayLabels()[CellIndex(s)] == DayNames[s.weekday]
  {
    LabelGrid();
  }

  /** The largest count (`counts.max()`). */
  function MaxCount(counts: seq<nat>): (m: nat)
    requires |counts| > 0
    ensures exists i :: 0 <= i < |counts| && counts[i] == m
    ensures forall i :: 0 <= i < |counts| ==> counts[i] <= m
  {
    if |counts| == 1 then counts[0]
    else
      var rest := MaxCount(counts[1..]);
      assert forall i :: 1 <= i < |counts| ==> counts[i] == counts[1..][i - 1];
      if counts[0] > rest then counts[0] else rest
  }

  /** A count as a fraction of a positive maximum it does not exceed. */
  lemma Fraction(c: nat, m: nat)
    requires 0 < m && c <= m
    ensures 0.0 <= (c as real) / (m as real) <= 1.0
    ensures (c as real) / (m as real) * (m as real) == c as real
    ensures (c as real) / (m as real) == 1.0 <==> c == m
    ensures c > 0 ==> (c as real) / (m as real) > 0.0
  {
  }

  /** Dividing by the same positive maximum keeps the order of counts. */
  lemma FractionMonotone(c: nat, d: nat, m: nat)
    requires 0 < m
    ensures c <= d <==> (c as real) / (m as real) <= (d as real) / (m as real)
  {
  }

  /** Every count divided by `m`. */
  function Scaled(counts: seq<nat>, m: nat): (p: seq<real>)
    requires 0 < m
    ensures |p| == |counts|
    ensures forall i :: 0 <= i < |p| ==> p[i] == counts[i] as real / m as real
  {
    if counts == [] then [] else [counts[0] as real / m as real] + Scaled(counts[1..], m)
  }

  /** Counts scaled by a positive bound on them lie in [0, 1], are positive
      for positive counts, and are 1 exactly where the count reaches the
      bound. */
  lemma ScaledBounds(counts: seq<nat>, m: nat)
    requires 0 < m && forall i :: 0 <= i < |counts| ==> counts[i] <= m
    ensures forall i :: 0 <= i < |counts| ==>
      0.0 <= Scaled(counts, m)[i] <= 1.0 && (counts[i] > 0 ==> Scaled(counts, m)[i] > 0.0)
    ensures forall i :: 0 <= i < |counts| ==> (Scaled(counts, m)[i] == 1.0 <==> counts[i] == m)
  {
    forall i | 0 <= i < |counts|
      ensures 0.0 <= Scaled(counts, m)[i] <= 1.0 && (counts[i] > 0 ==> Scaled(counts, m)[i] > 0.0)
      ensures Scaled(counts, m)[i] == 1.0 <==> counts[i] == m
    {
      Fraction(counts[i], m);
    }
  }

  /** `counts.astype(float) / counts.max()`, with exact division: every
      count as a fraction of the largest. Each lies in (0, 1], and it is 1
      exactly for the largest counts. */
  function Percentages(counts: seq<nat>): (p: seq<real>)
    requires forall i :: 0 <= i < |counts| ==> counts[i] >= 1
    ensures |p| == |counts|
    ensures forall i :: 0 <= i < |p| ==> p[i] == counts[i] as real / MaxCount(counts) as real
    ensures forall i :: 0 <= i < |p| ==> 0.0 < p[i] <= 1.0
    ensures forall i :: 0 <= i < |p| ==> (p[i] == 1.0 <==> counts[i] == MaxCount(counts))
  {
    if counts == [] then []
    else
      ScaledBounds(counts, MaxCount(counts));
      Scaled(counts, MaxCount(counts))
  }

  /** Normalisation keeps the order of the counts, and whenever there is a
      count at all some cell is at full intensity. */
  lemma PercentagesOrderAndPeak(counts: seq<nat>)
    requires forall i :: 0 <= i < |counts| ==> counts[i] >= 1
    ensures forall i, j :: 0 <= i < |counts| && 0 <= j < |counts| ==>
      (counts[i] <= counts[j] <==> Percentages(counts)[i] <= Percentages(counts)[j])
    ensures |counts| > 0 ==> exists i :: 0 <= i < |counts| && Percentages(counts)[i] == 1.0
  {
    if |counts| > 0 {
      var p, m := Percentages(counts), MaxCount(counts);
      forall i, j | 0 <= i < |counts| && 0 <= j < |counts|
        ensures counts[i] <= counts[j] <==> p[i] <= p[j]
      {
        FractionMonotone(counts[i], counts[j], m);
      }
      var k :| 0 <= k < |counts| && counts[k] == m;
      assert p[k] == 1.0;
    }
  }

  /** The 168-cell grid of counts the labels describe (`counts` reindexed
      over every cell with zeros filled in): position i holds the count
      recorded for the cell at hour i / 7 and weekday i % 7. */
  function DenseCounts(g: seq<Tally<Slot>>): (d: seq<nat>)
    ensures |d| == GridSize
  {
    seq(GridSize, i requires 0 <= i < GridSize => CountOf(g, CellAt(i)))
  }

  /** For an ascending tally of grid cells, every group sits at its cell's
      position of the dense grid and every other position is zero. */
  lemma DenseCountsPlaceGroups(g: seq<Tally<Slot>>)
    requires Ascending(g, SlotLess)
    requires forall k :: 0 <= k < |g| ==> InGrid(g[k].key)
    ensures forall k :: 0 <= k < |g| ==> DenseCounts(g)[CellIndex(g[k].key)] == g[k].count
    ensures forall i :: 0 <= i < GridSize && CellAt(i) !in Keys(g) ==> DenseCounts(g)[i] == 0
  {
    SlotLessIsStrictTotalOrder();
    forall k | 0 <= k < |g|
      ensures DenseCounts(g)[CellIndex(g[k].key)] == g[k].count
    {
      CountOfAscending(g, SlotLess, g[k].key);
      assert CellAt(CellIndex(g[k].key)) == g[k].key;
    }
    forall i | 0 <= i < GridSize && CellAt(i) !in Keys(g)
      ensures DenseCounts(g)[i] == 0
    {
      CountOfAscending(g, SlotLess, CellAt(i));
    }
  }

  /** A grid cell with a count makes the dense grid's largest count
      positive. */
  lemma DenseCountsOccupied(g: seq<Tally<Slot>>, s: Slot)
    requires InGrid(s) && CountOf(g, s) >= 1
    ensures MaxCount(DenseCounts(g)) > 0
  {
    assert DenseCounts(g)[CellIndex(s)] >= 1;
  }

  /** Dense intensities: each count over the largest, and 0 everywhere
      when every count is 0 (so no division by zero on an empty
      selection). */
  function DensePercentages(d: seq<nat>): (p: seq<real>)
    requires |d| > 0
    ensures |p| == |d|
    ensures forall i :: 0 <= i < |p| ==> 0.0 <= p[i] <= 1.0
    ensures MaxCount(d) == 0 ==> forall i :: 0 <= i < |p| ==> p[i] == 0.0
    ensures MaxCount(d) > 0 ==> forall i :: 0 <= i < |p| ==> p[i] == d[i] as real / MaxCount(d) as real
    ensures MaxCount(d) > 0 ==> exists i :: 0 <= i < |p| && p[i] == 1.0
  {
    var m := MaxCount(d);
    if m == 0 then Repeat(0.0, |d|)
    else
      ScaledBounds(d, m);
      var k :| 0 <= k < |d| && d[k] == m;
      var p := Scaled(d, m);
      assert p[k] == 1.0;
      p
  }
}
