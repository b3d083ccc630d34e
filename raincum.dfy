/**
 * The daily cumulative rain of read_data: `df.groupby(pd.Grouper(freq='D'))`
 * then `cumsum()` on `rr`, stored as the column `rrcum`. Within each calendar
 * day the non-missing `rr` values are summed in row order; a missing `rr`
 * gives a missing `rrcum` and adds nothing.
 */
module RainCum {
  import opened Wrappers
  import opened Frame

  /** The rain `r` adds to the running sum of day `d`. */
  function RainOn(r: Row, d: int): real
  {
    if Day(r.time) == d && Get(r, RainColumn).Some? then Get(r, RainColumn).value else 0.0
  }

  /** Reference definition: the non-missing `rr` of day `d` among the first `n` rows. */
  function DailyRain(rows: seq<Row>, d: int, n: nat): real
    requires n <= |rows|
  {
    if n == 0 then 0.0 else DailyRain(rows, d, n - 1) + RainOn(rows[n - 1], d)
  }

  /** What `rrcum` must hold in row `k`: missing where `rr` is, else the day's sum up to and including row `k`. */
  function DailyCumAt(rows: seq<Row>, k: nat): Cell
    requires k < |rows|
  {
    match Get(rows[k], RainColumn)
    case None => None
    case Some(_) => Some(DailyRain(rows, Day(rows[k].time), k + 1))
  }

  /** The running total of a day in the accumulator; a day not seen yet has 0. */
  function Total(acc: map<int, real>, d: int): real
  {
    if d in acc then acc[d] else 0.0
  }

  /**
   * The group-wise cumulative sum, as one pass over the rows from row `i` on,
   * keeping one running total per calendar day in `acc`.
   */
  function RunningDailyRain(rows: seq<Row>, i: nat, acc: map<int, real>): (cum: seq<Cell>)
    requires i <= |rows|
    ensures |cum| == |rows| - i
    decreases |rows| - i
  {
    if i == |rows| then []
    else
      match Get(rows[i], RainColumn)
      case None => [None] + RunningDailyRain(rows, i + 1, acc)
      case Some(v) =>
        var d := Day(rows[i].time);
        var total := Total(acc, d) + v;
        [Some(total)] + RunningDailyRain(rows, i + 1, acc[d := total])
  }

  /** The `rrcum` column for the rows of a table. */
  function RainCum(rows: seq<Row>): (cum: seq<Cell>)
    ensures |cum| == |rows|
  {
    RunningDailyRain(rows, 0, map[])
  }

  /** The pass agrees with the reference from row `i` on, when `acc` holds each day's sum of rows before `i`. */
  lemma {:induction false} RunningDailyRainCorrect(rows: seq<Row>, i: nat, acc: map<int, real>)
    requires i <= |rows|
    requires forall d :: Total(acc, d) == DailyRain(rows, d, i)
    ensures forall k :: i <= k < |rows| ==> RunningDailyRain(rows, i, acc)[k - i] == DailyCumAt(rows, k)
    decreases |rows| - i
  {
    if i < |rows| {
      var cum := RunningDailyRain(rows, i, acc);
      var d0 := Day(rows[i].time);
      match Get(rows[i], RainColumn)
      case None =>
        assert forall d :: DailyRain(rows, d, i + 1) == DailyRain(rows, d, i);
        RunningDailyRainCorrect(rows, i + 1, acc);
        assert cum == [None] + RunningDailyRain(rows, i + 1, acc);
      case Some(v) =>
        var total := Total(acc, d0) + v;
        var acc' := acc[d0 := total];
        forall d
          ensures Total(acc', d) == DailyRain(rows, d, i + 1)
        {
          if d == d0 {
            assert Total(acc', d) == total;
          } else {
            assert Total(acc', d) == Total(acc, d);
          }
        }
        RunningDailyRainCorrect(rows, i + 1, acc');
        assert cum == [Some(total)] + RunningDailyRain(rows, i + 1, acc');
    }
  }

  /** Every `rrcum` cell is the day's running sum of `rr` in row order, and missing exactly where `rr` is. */
  lemma RainCumCorrect(rows: seq<Row>)
    ensures forall k :: 0 <= k < |rows| ==> RainCum(rows)[k] == DailyCumAt(rows, k)
  {
    RunningDailyRainCorrect(rows, 0, map[]);
  }

  /** A day that no row before `n` falls on (with a reading) has nothing summed yet. */
  lemma {:induction false} NoEarlierRain(rows: seq<Row>, d: int, n: nat)
    requires n <= |rows|
    requires forall j :: 0 <= j < n ==> Day(rows[j].time) != d || Get(rows[j], RainColumn).None?
    ensures DailyRain(rows, d, n) == 0.0
  {
    if n > 0 {
      NoEarlierRain(rows, d, n - 1);
    }
  }

  /**
   * No carry-over across days: the first reading of a calendar day starts
   * the running sum afresh.
   */
  lemma FirstOfDay(rows: seq<Row>, k: nat, v: real)
    requires k < |rows| && Get(rows[k], RainColumn) == Some(v)
    requires forall j :: 0 <= j < k ==> Day(rows[j].time) != Day(rows[k].time) || Get(rows[j], RainColumn).None?
    ensures RainCum(rows)[k] == Some(v)
  {
    RainCumCorrect(rows);
    NoEarlierRain(rows, Day(rows[k].time), k);
  }

  /** Rows in time order. */
  ghost predicate Ascending(rows: seq<Row>)
  {
    forall i, j :: 0 <= i < j < |rows| ==> rows[i].time <= rows[j].time
  }

  /** On a feed in time order, the first row after midnight has `rrcum == rr`. */
  lemma MidnightReset(rows: seq<Row>, k: nat, v: real)
    requires Ascending(rows)
    requires 0 < k < |rows| && Day(rows[k - 1].time) < Day(rows[k].time)
    requires Get(rows[k], RainColumn) == Some(v)
    ensures RainCum(rows)[k] == Some(v)
  {
    forall j | 0 <= j < k
      ensures Day(rows[j].time) != Day(rows[k].time)
    {
      DayMonotone(rows[j].time, rows[k - 1].time);
    }
    FirstOfDay(rows, k, v);
  }

  /** Rows `j+1 .. n-1` add nothing to day `d`, so its sum is the same after `n` rows as after `j+1`. */
  lemma {:induction false} NoRainBetween(rows: seq<Row>, d: int, j: nat, n: nat)
    requires j < n <= |rows|
    requires forall m :: j < m < n ==> Day(rows[m].time) != d || Get(rows[m], RainColumn).None?
    ensures DailyRain(rows, d, n) == DailyRain(rows, d, j + 1)
  {
    if n > j + 1 {
      NoRainBetween(rows, d, j, n - 1);
    }
  }

  /**
   * The running sum: a reading adds its `rr` to the `rrcum` of the previous
   * reading of the same day.
   */
  lemma SameDayStep(rows: seq<Row>, j: nat, k: nat, v: real)
    requires j < k < |rows| && Day(rows[j].time) == Day(rows[k].time)
    requires Get(rows[j], RainColumn).Some? && Get(rows[k], RainColumn) == Some(v)
    requires forall m :: j < m < k ==> Day(rows[m].time) != Day(rows[k].time) || Get(rows[m], RainColumn).None?
    ensures RainCum(rows)[j].Some? && RainCum(rows)[k] == Some(RainCum(rows)[j].value + v)
  {
    RainCumCorrect(rows);
    NoRainBetween(rows, Day(rows[k].time), j, k);
  }

  /** With no negative `rr`, no day's running sum is negative. */
  lemma {:induction false} DailyRainNonNegative(rows: seq<Row>, d: int, n: nat)
    requires n <= |rows|
    requires forall i :: 0 <= i < |rows| && Get(rows[i], RainColumn).Some? ==> Get(rows[i], RainColumn).value >= 0.0
    ensures DailyRain(rows, d, n) >= 0.0
  {
    if n > 0 {
      DailyRainNonNegative(rows, d, n - 1);
    }
  }

  /** With no negative `rr`, `rrcum` is never negative, so never the sentinel either. */
  lemma RainCumNonNegative(rows: seq<Row>, k: nat)
    requires k < |rows|
    requires forall i :: 0 <= i < |rows| && Get(rows[i], RainColumn).Some? ==> Get(rows[i], RainColumn).value >= 0.0
    ensures RainCum(rows)[k].Some? ==> RainCum(rows)[k].value >= 0.0
  {
    RainCumCorrect(rows);
    DailyRainNonNegative(rows, Day(rows[k].time), k + 1);
  }

  /** Two ten-minute readings either side of midnight, 2.0 then 3.0, give `rrcum` 2.0 then 3.0. */
  lemma MidnightExample()
    ensures var rows := [Row(MsPerDay - 600000, map[RainColumn := Some(2.0)]),
                         Row(MsPerDay, map[RainColumn := Some(3.0)])];
            RainCum(rows) == [Some(2.0), Some(3.0)]
  {
    var rows := [Row(MsPerDay - 600000, map[RainColumn := Some(2.0)]),
                 Row(MsPerDay, map[RainColumn := Some(3.0)])];
    assert Day(rows[0].time) == 0 && Day(rows[1].time) == 1;
    RainCumCorrect(rows);
    assert DailyRain(rows, 0, 1) == 2.0;
    assert DailyRain(rows, 1, 1) == 0.0;
    assert DailyRain(rows, 1, 2) == 3.0;
    assert RainCum(rows)[0] == DailyCumAt(rows, 0) == Some(2.0);
    assert RainCum(rows)[1] == DailyCumAt(rows, 1) == Some(3.0);
  }

  /** Rows with the same times and the same `rr` cells have the same daily sums. */
  lemma {:induction false} DailyRainSameRain(a: seq<Row>, b: seq<Row>, d: int, n: nat)
    requires n <= |a| == |b|
    requires forall i :: 0 <= i < |a| ==> a[i].time == b[i].time && Get(a[i], RainColumn) == Get(b[i], RainColumn)
    ensures DailyRain(a, d, n) == DailyRain(b, d, n)
  {
    if n > 0 {
      DailyRainSameRain(a, b, d, n - 1);
    }
  }

  /**
   * `df['rrcum'] = ...` when the frame has an `rr` column: `rrcum` is added
   * (or overwritten) and every other cell is kept.
   */
  function WithRainCum(t: Table): (r: Table)
    ensures RainColumn !in t.columns ==> r == t
    ensures RainColumn in t.columns ==>
              && ColumnSet(r.columns) == ColumnSet(t.columns) + {RainCumColumn}
              && (RainCumColumn in t.columns ==> r.columns == t.columns)
              && (RainCumColumn !in t.columns ==> r.columns == t.columns + [RainCumColumn])
    ensures |r.rows| == |t.rows|
    ensures forall i :: 0 <= i < |r.rows| ==> r.rows[i].time == t.rows[i].time
    ensures forall i, c :: 0 <= i < |r.rows| && c != RainCumColumn ==> Get(r.rows[i], c) == Get(t.rows[i], c)
    ensures RainColumn in t.columns ==>
              forall i :: 0 <= i < |r.rows| ==> Get(r.rows[i], RainCumColumn) == DailyCumAt(r.rows, i)
  {
    if RainColumn !in t.columns then t
    else
      var cum := RainCum(t.rows);
      RainCumCorrect(t.rows);
      var cols := if RainCumColumn in t.columns then t.columns else t.columns + [RainCumColumn];
      var rows := seq(|t.rows|, i requires 0 <= i < |t.rows| =>
                        Row(t.rows[i].time, t.rows[i].cells[RainCumColumn := cum[i]]));
      assert forall d, n :: 0 <= n <= |rows| ==> DailyRain(rows, d, n) == DailyRain(t.rows, d, n) by {
        forall d, n | 0 <= n <= |rows| ensures DailyRain(rows, d, n) == DailyRain(t.rows, d, n) {
          DailyRainSameRain(rows, t.rows, d, n);
        }
      }
      Table(cols, rows)
  }

  /** `rrcum` is derived exactly when `rr` is present (for a feed without an `rrcum` of its own). */
  lemma RainCumPresence(t: Table)
    requires RainCumColumn !in t.columns
    ensures RainCumColumn in WithRainCum(t).columns <==> RainColumn in t.columns
  {
  }

  /** Adding `rrcum` keeps every row holding exactly the table's columns. */
  lemma WithRainCumKeepsRectangular(t: Table)
    requires Rectangular(t)
    ensures Rectangular(WithRainCum(t))
  {
  }
}
