/**
 * The sentinel scrub of read_data: for each column in turn, every row whose
 * cell in that column equals -99.9 is set to NaN in every column. The time
 * index is left alone.
 */
module Scrub {
  import opened Wrappers
  import opened Frame

  /** Every cell of the row is missing. */
  ghost predicate AllMissing(r: Row)
  {
    forall c :: Get(r, c) == None
  }

  /** The row after `df[mask] = np.nan` has selected it: same time, same columns, all NaN. */
  function Blank(r: Row): (b: Row)
    ensures b.time == r.time && b.cells.Keys == r.cells.Keys
    ensures AllMissing(b)
  {
    Row(r.time, map c | c in r.cells :: None)
  }

  /** A row once the columns `cols` have been scrubbed. */
  function ScrubRow(r: Row, cols: seq<Column>): Row
  {
    if HoldsSentinel(r.cells, cols) then Blank(r) else r
  }

  /** The whole table once every column has been scrubbed. */
  function Scrubbed(t: Table): (s: Table)
    ensures s.columns == t.columns && |s.rows| == |t.rows|
  {
    Table(t.columns, seq(|t.rows|, i requires 0 <= i < |t.rows| => ScrubRow(t.rows[i], t.columns)))
  }

  /** Scrubbing one more column `c` acts on the row as the loop body does. */
  lemma ScrubStep(r: Row, cols: seq<Column>, c: Column)
    ensures ScrubRow(r, cols + [c]) ==
              var x := ScrubRow(r, cols);
              if Get(x, c) == Some(Sentinel) then Blank(x) else x
  {
    var x := ScrubRow(r, cols);
    if HoldsSentinel(r.cells, cols) {
      assert forall j :: 0 <= j < |cols| ==> (cols + [c])[j] == cols[j];
      assert HoldsSentinel(r.cells, cols + [c]);
    } else if Get(r, c) == Some(Sentinel) {
      assert (cols + [c])[|cols|] == c;
    } else {
      assert forall j :: 0 <= j < |cols| + 1 ==> (cols + [c])[j] == if j < |cols| then cols[j] else c;
    }
  }

  /**
   * The loop over `df.columns`. Each pass computes the mask of rows whose
   * cell in that column is the sentinel, and blanks those rows.
   */
  method ScrubSentinel(t: Table) returns (s: Table)
    ensures s == Scrubbed(t)
    ensures s.columns == t.columns && |s.rows| == |t.rows|
    ensures forall i :: 0 <= i < |s.rows| ==> s.rows[i].time == t.rows[i].time
    ensures forall i :: 0 <= i < |s.rows| && HoldsSentinel(t.rows[i].cells, t.columns) ==> AllMissing(s.rows[i])
    ensures forall i :: 0 <= i < |s.rows| && !HoldsSentinel(t.rows[i].cells, t.columns) ==> s.rows[i] == t.rows[i]
    ensures forall i :: 0 <= i < |s.rows| ==> !HoldsSentinel(s.rows[i].cells, s.columns)
  {
    var rows := t.rows;
    var k := 0;
    while k < |t.columns|
      invariant 0 <= k <= |t.columns|
      invariant |rows| == |t.rows|
      invariant forall i :: 0 <= i < |rows| ==> rows[i] == ScrubRow(t.rows[i], t.columns[..k])
    {
      var c := t.columns[k];
      assert t.columns[..k + 1] == t.columns[..k] + [c];
      var i := 0;
      while i < |rows|
        invariant 0 <= i <= |rows| == |t.rows|
        invariant forall j :: 0 <= j < i ==> rows[j] == ScrubRow(t.rows[j], t.columns[..k + 1])
        invariant forall j :: i <= j < |rows| ==> rows[j] == ScrubRow(t.rows[j], t.columns[..k])
      {
        ScrubStep(t.rows[i], t.columns[..k], c);
        if Get(rows[i], c) == Some(Sentinel) {
          rows := rows[i := Blank(rows[i])];
        }
        i := i + 1;
      }
      k := k + 1;
    }
    assert t.columns[..k] == t.columns;
    s := Table(t.columns, rows);
    forall i | 0 <= i < |s.rows|
      ensures !HoldsSentinel(s.rows[i].cells, s.columns)
    {
      ScrubbedRowClean(t.rows[i], t.columns);
    }
  }

  /** A scrubbed row holds the sentinel in none of the scrubbed columns. */
  lemma ScrubbedRowClean(r: Row, cols: seq<Column>)
    ensures !HoldsSentinel(ScrubRow(r, cols).cells, cols)
  {
  }

  /** After the scrub no cell of any column equals -99.9. */
  lemma ScrubRemovesSentinel(t: Table, i: int, c: Column)
    requires 0 <= i < |t.rows| && c in t.columns
    ensures Get(Scrubbed(t).rows[i], c) != Some(Sentinel)
  {
  }

  /** Scrubbing its own output changes nothing. */
  lemma ScrubIdempotent(t: Table)
    ensures Scrubbed(Scrubbed(t)) == Scrubbed(t)
  {
  }

  /** The scrub keeps every row holding exactly the table's columns. */
  lemma ScrubKeepsRectangular(t: Table)
    requires Rectangular(t)
    ensures Rectangular(Scrubbed(t))
  {
  }
}
