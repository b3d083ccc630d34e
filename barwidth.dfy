/**
 * get_width: the bar width of the sunshine-duration plot, 0.8 times the
 * time span of the table in milliseconds, divided by its number of rows.
 */
module BarWidth {
  import opened Wrappers
  import opened Frame

  /** min() over the time index. */
  function MinTime(ts: seq<int>): (m: int)
    requires |ts| > 0
    ensures m in ts
    ensures forall i :: 0 <= i < |ts| ==> m <= ts[i]
  {
    if |ts| == 1 then ts[0]
    else
      var rest := MinTime(ts[1..]);
      if ts[0] <= rest then ts[0] else rest
  }

  /** max() over the time index. */
  function MaxTime(ts: seq<int>): (m: int)
    requires |ts| > 0
    ensures m in ts
    ensures forall i :: 0 <= i < |ts| ==> ts[i] <= m
  {
    if |ts| == 1 then ts[0]
    else
      var rest := MaxTime(ts[1..]);
      if ts[0] >= rest then ts[0] else rest
  }

  /** `maxdate - mindate` in milliseconds: the largest distance between two timestamps. */
  function Span(ts: seq<int>): (s: int)
    requires |ts| > 0
    ensures s >= 0
  {
    MaxTime(ts) - MinTime(ts)
  }

  /** The span is the largest distance between two timestamps of the index. */
  lemma SpanIsLargestGap(ts: seq<int>)
    requires |ts| > 0
    ensures forall i, j :: 0 <= i < |ts| && 0 <= j < |ts| ==> ts[i] - ts[j] <= Span(ts)
    ensures exists i, j :: 0 <= i < |ts| && 0 <= j < |ts| && ts[i] - ts[j] == Span(ts)
  {
    var hi, lo := MaxTime(ts), MinTime(ts);
    var i :| 0 <= i < |ts| && ts[i] == hi;
    var j :| 0 <= j < |ts| && ts[j] == lo;
    assert ts[i] - ts[j] == Span(ts);
  }

  /**
   * get_width on the table: None where min() of the empty index would raise
   * ValueError, else 0.8 * span / row count.
   */
  function Width(t: Table): (w: Option<real>)
    ensures w.None? <==> |t.rows| == 0
    ensures w.Some? ==> w.value >= 0.0
    ensures w.Some? ==> w.value == ScaledPerRow(Span(Times(t)), |t.rows|)
    ensures |t.rows| == 1 ==> w == Some(0.0)
  {
    if |t.rows| == 0 then None
    else
      SpanOfOne(Times(t));
      Some(ScaledPerRow(Span(Times(t)), |t.rows|))
  }

  /** A single timestamp spans nothing. */
  lemma SpanOfOne(ts: seq<int>)
    requires |ts| > 0
    ensures |ts| == 1 ==> Span(ts) == 0
  {
  }

  /** 0.8 * span / n, the expression get_width returns. */
  function ScaledPerRow(span: int, n: int): (w: real)
    requires span >= 0 && n > 0
    ensures w >= 0.0 && w * (n as real) == 0.8 * (span as real)
    ensures span == 0 ==> w == 0.0
  {
    var x := 0.8 * (span as real);
    var m := n as real;
    assert (x / m) * m == x;
    x / m
  }

  /** Span depends only on the multiset of timestamps. */
  lemma SpanOrderIndependent(a: seq<int>, b: seq<int>)
    requires |a| > 0 && multiset(a) == multiset(b)
    ensures |b| > 0 && Span(a) == Span(b)
  {
    assert |b| == |multiset(b)| == |multiset(a)| == |a|;
    var mina, minb, maxa, maxb := MinTime(a), MinTime(b), MaxTime(a), MaxTime(b);
    assert mina in multiset(b) && maxa in multiset(b);
    assert minb in multiset(a) && maxb in multiset(a);
    var i :| 0 <= i < |b| && b[i] == mina;
    var j :| 0 <= j < |a| && a[j] == minb;
    var k :| 0 <= k < |b| && b[k] == maxa;
    var l :| 0 <= l < |a| && a[l] == maxb;
  }

  /** The width does not depend on the order of the rows. */
  lemma WidthOrderIndependent(t: Table, u: Table)
    requires multiset(Times(t)) == multiset(Times(u))
    ensures Width(t) == Width(u)
  {
    var a, b := Times(t), Times(u);
    assert |a| == |multiset(a)| == |multiset(b)| == |b|;
    if |a| > 0 {
      SpanOrderIndependent(a, b);
    }
  }
}
