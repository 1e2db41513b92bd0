/** Preparation of the forecasting series: the `datetime` and `value` columns of the uploaded
    table, with incomplete rows dropped and the rest ordered by time. Instants are integers
    (nanoseconds, as pandas stores them); the parse of the `datetime` column happens before. */
module Series {
  import opened Wrappers
  import Sequences
  import Sorting

  /** One row of the table restricted to its `datetime` and `value` columns; a missing cell
      (NaT / NaN) is `None`. */
  datatype RawRow = RawRow(time: Option<int>, value: Option<real>)

  /** One observation of the prepared series. */
  datatype Point = Point(time: int, value: real)

  /** Neither field of the row is missing, so `dropna` keeps it. */
  predicate Present(row: RawRow) {
    row.time.Some? && row.value.Some?
  }

  /** At least one field is missing, so `dropna` drops the row. */
  predicate HasMissing(row: RawRow) {
    !Present(row)
  }

  function ToPoint(row: RawRow): Point
    requires Present(row)
  {
    Point(row.time.value, row.value.value)
  }

  /** The only raw row that becomes the point `p`. */
  function Lift(p: Point): RawRow {
    RawRow(Some(p.time), Some(p.value))
  }

  /** The sort key of the series. */
  function ByTime(p: Point): int {
    p.time
  }

  /** `dropna()`: the complete rows, in table order. Each point occurs exactly as often as a
      row carrying both of its fields occurs in the table. */
  function Complete(rows: seq<RawRow>): (r: seq<Point>)
    ensures |r| <= |rows|
    ensures forall p :: multiset(r)[p] == multiset(rows)[Lift(p)]
  {
    if |rows| == 0 then []
    else
      var rest := Complete(rows[1..]);
      assert rows == [rows[0]] + rows[1..];
      if Present(rows[0]) then [ToPoint(rows[0])] + rest else rest
  }

  /** The series is in time order (non-decreasing; equal instants may come in any order). */
  ghost predicate Chronological(series: seq<Point>) {
    forall i, j :: 0 <= i < j < |series| ==> series[i].time <= series[j].time
  }

  /** Sorting by `ByTime` puts a series in time order, and its last point is the latest. */
  lemma SortedByTime(series: seq<Point>)
    requires Sorting.SortedBy(series, ByTime)
    ensures Chronological(series)
    ensures forall i :: 0 <= i < |series| ==> series[i].time <= series[|series| - 1].time
  {
    forall i, j | 0 <= i < j < |series|
      ensures series[i].time <= series[j].time
    {
      assert ByTime(series[i]) <= ByTime(series[j]);
    }
  }

  /** `df[['datetime', 'value']].dropna().sort_values('datetime')`: a rearrangement of exactly
      the complete rows, ordered by time, so that its last point carries the latest instant. */
  function Prepare(rows: seq<RawRow>): (r: seq<Point>)
    ensures |r| == |Complete(rows)|
    ensures forall p :: multiset(r)[p] == multiset(rows)[Lift(p)]
    ensures Chronological(r)
    ensures forall i :: 0 <= i < |r| ==> r[i].time <= r[|r| - 1].time
  {
    var kept := Complete(rows);
    var r := Sorting.SortBy(kept, ByTime);
    assert multiset(r) == multiset(kept);
    SortedByTime(r);
    r
  }

  /** Dropping incomplete rows keeps the table order: it distributes over concatenation. */
  lemma {:induction false} CompleteAppend(a: seq<RawRow>, b: seq<RawRow>)
    ensures Complete(a + b) == Complete(a) + Complete(b)
  {
    if |a| == 0 {
      assert a + b == b;
    } else {
      assert (a + b)[1..] == a[1..] + b;
      CompleteAppend(a[1..], b);
    }
  }

  /** Every row is either kept by `dropna` or counted as having a missing field. */
  lemma {:induction false} CompleteCount(rows: seq<RawRow>)
    ensures |Complete(rows)| + |Sequences.Filter(rows, HasMissing)| == |rows|
  {
    if |rows| > 0 {
      CompleteCount(rows[1..]);
    }
  }

  /** `df_forecast.index[-1]`: the last instant of the series, absent (an IndexError) when the
      series is empty. It is the instant of an observation, and on a prepared series the
      latest one. */
  function LastInstant(series: seq<Point>): (r: Option<int>)
    ensures r.None? <==> |series| == 0
    ensures r.Some? ==> exists i :: 0 <= i < |series| && series[i].time == r.value
    ensures r.Some? && Chronological(series) ==> forall p :: p in series ==> p.time <= r.value
  {
    if |series| == 0 then None else Some(series[|series| - 1].time)
  }

  /** The values of the series in its order (`df_forecast['value']`). */
  function Values(series: seq<Point>): seq<real> {
    seq(|series|, i requires 0 <= i < |series| => series[i].value)
  }
}
