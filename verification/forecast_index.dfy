/** The timestamps attached to a forecast: `pd.date_range(start=last, periods=h + 1, freq='D')[1:]`. */
module ForecastIndex {

  /** One calendar day in nanoseconds, the resolution of pandas timestamps. */
  const Day: int := 86_400_000_000_000

  /** `pd.date_range(start, periods=count, freq='D')`: `count` instants one day apart,
      the first being `start` itself (the time of day of `start` is kept). */
  function DateRange(start: int, count: nat): (r: seq<int>)
    ensures |r| == count
    ensures count > 0 ==> r[0] == start
    ensures forall k :: 0 < k < |r| ==> r[k] == r[k - 1] + Day
  {
    seq(count, k => start + k * Day)
  }

  /** The forecast index: `periods` daily instants continuing the history whose last instant
      is `last`. The first is one day after `last`, each next one a day later. */
  function Continuation(last: int, periods: nat): (r: seq<int>)
    ensures |r| == periods
    ensures forall k :: 0 <= k < |r| ==> r[k] == last + (k + 1) * Day
    ensures forall i, j :: 0 <= i < j < |r| ==> r[i] < r[j]
    ensures forall k :: 0 <= k < |r| ==> last < r[k]
    ensures forall k :: 0 < k < |r| ==> r[k] - r[k - 1] == Day
  {
    DateRange(last, periods + 1)[1..]
  }

  /** A longer horizon only extends the index: the first `q` instants do not depend on it. */
  lemma ContinuationPrefix(last: int, p: nat, q: nat)
    requires q <= p
    ensures Continuation(last, p)[..q] == Continuation(last, q)
  {
  }
}
