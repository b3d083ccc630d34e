/**
 * The first half of read_data: the frame as pd.read_json builds it from the
 * feed, the conversion of the millisecond column `datumsec` into the time
 * index, and the removal of `datumsec` from the data columns.
 */
module Ingest {
  import opened Wrappers
  import opened Frame

  const TimestampColumn: Column := "datumsec"
  const IndexColumn: Column := "time"

  /**
   * The range of Python's datetime, as milliseconds from 1970-01-01:
   * 0001-01-01 00:00:00.000 up to 9999-12-31 23:59:59.999.
   */
  const MinDatetimeMs: int := -62135596800000
  const MaxDatetimeMs: int := 253402300799999

  /**
   * One record of the feed. `datumsec` is None where the record has no
   * millisecond stamp (NaN once pandas has read it); a column missing from
   * `cells` reads as NaN too.
   */
  datatype RawRecord = RawRecord(datumsec: Option<int>, cells: map<Column, Cell>)

  /** The frame pd.read_json returns: its columns in order, and its records. */
  datatype RawFeed = RawFeed(columns: seq<Column>, records: seq<RawRecord>)

  /** The exceptions read_data raises on a feed it has fetched. */
  datatype FeedError =
    | NoTimestampColumn                          // KeyError: 'datumsec'
    | MissingTimestamp(index: nat)               // ValueError: NaN milliseconds
    | TimestampOutOfRange(index: nat, ms: int)   // OverflowError: outside datetime's range
    | NotDatetimeIndex                           // TypeError: daily grouping of an index without datetimes

  /**
   * Whether the index set_index builds from the list of datetimes is a
   * DatetimeIndex: it is when the list has an element; an empty list gives a
   * plain Index, which pd.Grouper(freq='D') rejects.
   */
  predicate DatetimeIndexed(t: Table)
  {
    |t.rows| > 0
  }

  /**
   * The data columns left once `time` has become the index and `datumsec`
   * has been dropped.
   */
  function KeptColumns(cols: seq<Column>): (kept: seq<Column>)
    ensures forall c :: c in kept <==> c in cols && c != TimestampColumn && c != IndexColumn
    ensures |kept| <= |cols|
  {
    if cols == [] then []
    else if cols[0] == TimestampColumn || cols[0] == IndexColumn then KeptColumns(cols[1..])
    else [cols[0]] + KeptColumns(cols[1..])
  }

  /** A stamp that datetime(1970, 1, 1) + timedelta(milliseconds=ds) accepts. */
  predicate ValidStamp(r: RawRecord)
  {
    r.datumsec.Some? && MinDatetimeMs <= r.datumsec.value <= MaxDatetimeMs
  }

  /**
   * The time of record number `index`: epoch plus `datumsec` milliseconds,
   * or the exception the conversion raises for it.
   */
  function ToTime(r: RawRecord, index: nat): (res: Result<int, FeedError>)
    ensures res.Ok? <==> ValidStamp(r)
    ensures res.Ok? ==> res.value == r.datumsec.value
    ensures res.Err? ==> res.error.MissingTimestamp? || res.error.TimestampOutOfRange?
    ensures res.Err? ==> res.error.index == index
    ensures r.datumsec.None? ==> res == Err(MissingTimestamp(index))
    ensures r.datumsec.Some? && !ValidStamp(r) ==> res == Err(TimestampOutOfRange(index, r.datumsec.value))
  {
    match r.datumsec
    case None => Err(MissingTimestamp(index))
    case Some(ms) =>
      if MinDatetimeMs <= ms <= MaxDatetimeMs then Ok(ms) else Err(TimestampOutOfRange(index, ms))
  }

  /**
   * The list comprehension over `datumsec` from record `from` on: the times
   * in record order, or the exception raised by the first record that fails.
   */
  function Stamps(records: seq<RawRecord>, from: nat): (res: Result<seq<int>, FeedError>)
    requires from <= |records|
    ensures res.Ok? <==> forall k :: from <= k < |records| ==> ValidStamp(records[k])
    ensures res.Ok? ==> |res.value| == |records| - from
    ensures res.Ok? ==> forall k :: from <= k < |records| ==> res.value[k - from] == records[k].datumsec.value
    ensures res.Err? ==> res.error.MissingTimestamp? || res.error.TimestampOutOfRange?
    ensures res.Err? ==> from <= res.error.index < |records|
    ensures res.Err? ==> ToTime(records[res.error.index], res.error.index) == Err(res.error)
    ensures res.Err? ==> forall k :: from <= k < res.error.index ==> ValidStamp(records[k])
    decreases |records| - from
  {
    if from == |records| then Ok([])
    else
      match ToTime(records[from], from)
      case Err(e) => Err(e)
      case Ok(t) =>
        match Stamps(records, from + 1)
        case Err(e) => Err(e)
        case Ok(ts) => Ok([t] + ts)
  }

  /** The row built from a record, holding exactly the kept columns. */
  function RowOf(time: int, r: RawRecord, kept: seq<Column>): Row
  {
    Row(time, map c | c in kept :: Lookup(r.cells, c))
  }

  /**
   * read_data up to the drop of `datumsec`: the time index is set, the
   * millisecond column is gone, and every other cell is as read.
   */
  function Normalize(feed: RawFeed): (res: Result<Table, FeedError>)
    ensures res.Err? <==>
              TimestampColumn !in feed.columns
              || exists k :: 0 <= k < |feed.records| && !ValidStamp(feed.records[k])
    ensures res.Err? && TimestampColumn !in feed.columns ==> res.error == NoTimestampColumn
    ensures res.Err? && TimestampColumn in feed.columns ==>
              && (res.error.MissingTimestamp? || res.error.TimestampOutOfRange?)
              && var j := res.error.index;
              && 0 <= j < |feed.records|
              && ToTime(feed.records[j], j) == Err(res.error)
              && forall k :: 0 <= k < j ==> ValidStamp(feed.records[k])
    ensures res.Ok? ==>
              var t := res.value;
              && Rectangular(t)
              && (forall c :: c in t.columns <==> c in feed.columns && c != TimestampColumn && c != IndexColumn)
              && |t.rows| == |feed.records|
              && (forall i :: 0 <= i < |t.rows| ==> t.rows[i].time == feed.records[i].datumsec.value)
              && (forall i, c :: 0 <= i < |t.rows| && c in t.columns ==> Get(t.rows[i], c) == Lookup(feed.records[i].cells, c))
  {
    if TimestampColumn !in feed.columns then Err(NoTimestampColumn)
    else
      match Stamps(feed.records, 0)
      case Err(e) => Err(e)
      case Ok(ts) =>
        var kept := KeptColumns(feed.columns);
        Ok(Table(kept, seq(|ts|, i requires 0 <= i < |ts| => RowOf(ts[i], feed.records[i], kept))))
  }
}
