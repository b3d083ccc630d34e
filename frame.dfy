/**
 * The time-indexed table that read_data returns: one row per observation,
 * indexed by its timestamp, with one optional float per column.
 */
module Frame {
  import opened Wrappers

  type Column = string

  /** A cell holds a reading, or None where pandas holds NaN. */
  type Cell = Option<real>

  /** The feed's marker for "no reading". */
  const Sentinel: real := -99.9

  const MsPerDay: int := 86400000

  /** Rain amount column of the feed, and the daily running sum derived from it. */
  const RainColumn: Column := "rr"
  const RainCumColumn: Column := "rrcum"

  /**
   * A row of the table. `time` is its index value: a naive timestamp, held
   * as the number of milliseconds since 1970-01-01 00:00.
   */
  datatype Row = Row(time: int, cells: map<Column, Cell>)

  /** `columns` lists the data columns in order; the time index is not one of them. */
  datatype Table = Table(columns: seq<Column>, rows: seq<Row>)

  /** The cell of column `c`; a column the map does not hold reads as missing (NaN). */
  function Lookup(cells: map<Column, Cell>, c: Column): Cell
  {
    if c in cells then cells[c] else None
  }

  /** The cell of column `c` in row `r`. */
  function Get(r: Row, c: Column): Cell
  {
    Lookup(r.cells, c)
  }

  /** Some column among `cols` holds the sentinel. */
  predicate HoldsSentinel(cells: map<Column, Cell>, cols: seq<Column>)
  {
    exists j :: 0 <= j < |cols| && Lookup(cells, cols[j]) == Some(Sentinel)
  }

  /** The calendar day a timestamp falls in, counted from 1970-01-01 (floor division). */
  function Day(ms: int): (d: int)
    ensures d * MsPerDay <= ms < d * MsPerDay + MsPerDay
  {
    ms / MsPerDay
  }

  /** Calendar days follow the order of the timestamps. */
  lemma DayMonotone(a: int, b: int)
    requires a <= b
    ensures Day(a) <= Day(b)
  {
  }

  function ColumnSet(cols: seq<Column>): set<Column>
  {
    set c | c in cols
  }

  /** Every row holds exactly the table's columns, as a pandas frame does. */
  ghost predicate Rectangular(t: Table)
  {
    forall i :: 0 <= i < |t.rows| ==> t.rows[i].cells.Keys == ColumnSet(t.columns)
  }

  /** The time index of a table, in row order. */
  function Times(t: Table): (ts: seq<int>)
    ensures |ts| == |t.rows|
    ensures forall i :: 0 <= i < |ts| ==> ts[i] == t.rows[i].time
  {
    seq(|t.rows|, i requires 0 <= i < |t.rows| => t.rows[i].time)
  }
}
