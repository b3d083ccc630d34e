/**
 * read_data after the network read: build the time index, scrub the
 * sentinel, and derive the daily cumulative rain.
 */
module Pipeline {
  import opened Wrappers
  import opened Frame
  import opened Ingest
  import opened Scrub
  import opened RainCum

  /**
   * The time index is epoch plus `datumsec` milliseconds, row for row;
   * `datumsec` is gone, and `rrcum` is there exactly when `rr` is.
   */
  ghost predicate ShapeFrom(feed: RawFeed, t: Table)
  {
    && Rectangular(t)
    && |t.rows| == |feed.records|
    && (forall i :: 0 <= i < |t.rows| ==>
          feed.records[i].datumsec.Some? && t.rows[i].time == feed.records[i].datumsec.value)
    && (forall c :: c in t.columns <==>
          c in KeptColumns(feed.columns) || (c == RainCumColumn && RainColumn in feed.columns))
  }

  /**
   * No cell of a scrubbed column holds the sentinel; a record with the
   * sentinel in any column is missing in every column; any other record
   * keeps its cells as read.
   */
  ghost predicate CellsFrom(feed: RawFeed, t: Table)
  {
    var kept := KeptColumns(feed.columns);
    && |t.rows| == |feed.records|
    && (forall i, c :: 0 <= i < |t.rows| && c in t.columns && !(c == RainCumColumn && RainColumn in feed.columns) ==>
          Get(t.rows[i], c) != Some(Sentinel))
    && (forall i, c :: 0 <= i < |t.rows| && HoldsSentinel(feed.records[i].cells, kept) && !(c == RainCumColumn && RainColumn in feed.columns) ==>
          Get(t.rows[i], c) == None)
    && (forall i, c :: 0 <= i < |t.rows| && !HoldsSentinel(feed.records[i].cells, kept) && c in kept && !(c == RainCumColumn && RainColumn in feed.columns) ==>
          Get(t.rows[i], c) == Lookup(feed.records[i].cells, c))
  }

  /** `rrcum` is the running sum of `rr` within each calendar day. */
  ghost predicate RainCumFrom(feed: RawFeed, t: Table)
  {
    RainColumn in feed.columns ==>
      forall i :: 0 <= i < |t.rows| ==> Get(t.rows[i], RainCumColumn) == DailyCumAt(t.rows, i)
  }

  /** The table read_data returns for a feed it accepts, in terms of the feed. */
  ghost predicate ReadFrom(feed: RawFeed, t: Table)
  {
    ShapeFrom(feed, t) && CellsFrom(feed, t) && RainCumFrom(feed, t)
  }

  /** After a successful conversion, the scrub and the derivation of `rrcum` give the shape ShapeFrom asks for. */
  lemma StagesShape(feed: RawFeed, indexed: Table)
    requires Normalize(feed) == Ok(indexed)
    ensures ShapeFrom(feed, WithRainCum(Scrubbed(indexed)))
  {
  }

  /** After a successful conversion, the scrub and the derivation of `rrcum` keep or blank the cells as CellsFrom asks. */
  lemma StagesCells(feed: RawFeed, indexed: Table)
    requires Normalize(feed) == Ok(indexed)
    ensures CellsFrom(feed, WithRainCum(Scrubbed(indexed)))
  {
    var s := Scrubbed(indexed);
    var t := WithRainCum(s);
    var kept := KeptColumns(feed.columns);
    assert indexed.columns == kept;
    forall i | 0 <= i < |indexed.rows|
      ensures HoldsSentinel(indexed.rows[i].cells, kept) <==> HoldsSentinel(feed.records[i].cells, kept)
    {
      assert forall j :: 0 <= j < |kept| ==> Get(indexed.rows[i], kept[j]) == Lookup(feed.records[i].cells, kept[j]);
    }
    forall i, c | 0 <= i < |t.rows| && c in t.columns && !(c == RainCumColumn && RainColumn in feed.columns)
      ensures Get(t.rows[i], c) != Some(Sentinel)
    {
      ScrubRemovesSentinel(indexed, i, c);
    }
  }

  /** After a successful conversion, the derived `rrcum` column is the one RainCumFrom asks for. */
  lemma StagesRainCum(feed: RawFeed, indexed: Table)
    requires Normalize(feed) == Ok(indexed)
    ensures RainCumFrom(feed, WithRainCum(Scrubbed(indexed)))
  {
  }

  /**
   * read_data on an already fetched feed: the frame it returns, or the
   * exception it raises while building the time index or grouping by day.
   */
  method ReadData(feed: RawFeed) returns (res: Result<Table, FeedError>)
    ensures res.Err? <==>
              || TimestampColumn !in feed.columns
              || (exists k :: 0 <= k < |feed.records| && !ValidStamp(feed.records[k]))
              || (RainColumn in feed.columns && |feed.records| == 0)
    ensures Normalize(feed).Err? ==> res == Err(Normalize(feed).error)
    ensures Normalize(feed).Ok? && RainColumn in feed.columns && |feed.records| == 0 ==>
              res == Err(NotDatetimeIndex)
    ensures res.Ok? ==> ReadFrom(feed, res.value)
  {
    var n := Normalize(feed);
    if n.Err? {
      return Err(n.error);
    }
    var indexed := n.value;
    var scrubbed := ScrubSentinel(indexed);
    if RainColumn in scrubbed.columns && !DatetimeIndexed(scrubbed) {
      return Err(NotDatetimeIndex);
    }
    StagesShape(feed, indexed);
    StagesCells(feed, indexed);
    StagesRainCum(feed, indexed);
    res := Ok(WithRainCum(scrubbed));
  }
}
