/** Cutting the scaled series into training windows for the recurrent model, and the window
    that seeds the forecast. */
module Windows {

  /** `seq_length = min(10, n // 2)`: the largest window length of at most ten that leaves at
      least as many training windows (`n - len`) as the window is long (`2 * len <= n`). */
  function SeqLength(n: nat): (len: nat)
    ensures len <= 10 && 2 * len <= n
    ensures len == 10 || n < 2 * (len + 1)
    ensures n >= 2 ==> len >= 1
  {
    if n / 2 < 10 then n / 2 else 10
  }

  /** `create_sequences(data, len)`: for every start position with a successor, the window of
      `len` values starting there and the value right after it. `range` of a negative count is
      empty, so a window longer than the data yields nothing. */
  method CreateSequences<T>(data: seq<T>, len: nat) returns (xs: seq<seq<T>>, ys: seq<T>)
    ensures |xs| == |ys| == if |data| > len then |data| - len else 0
    ensures forall i :: 0 <= i < |xs| ==> |xs[i]| == len && xs[i] == data[i..i + len]
    ensures forall i :: 0 <= i < |ys| ==> ys[i] == data[i + len]
  {
    xs, ys := [], [];
    var count := if |data| > len then |data| - len else 0;
    var i := 0;
    while i < count
      invariant 0 <= i <= count
      invariant |xs| == |ys| == i
      invariant forall k :: 0 <= k < i ==> xs[k] == data[k..k + len]
      invariant forall k :: 0 <= k < i ==> ys[k] == data[k + len]
    {
      xs := xs + [data[i..i + len]];
      ys := ys + [data[i + len]];
      i := i + 1;
    }
  }

  /** Python's `s[start:]`: a negative start counts from the end, and a start beyond either
      end is clamped to it. */
  function PySuffix<T>(s: seq<T>, start: int): (r: seq<T>)
    ensures |r| <= |s| && s == s[..|s| - |r|] + r
  {
    var k := if start < 0 then (if |s| + start < 0 then 0 else |s| + start)
             else (if start > |s| then |s| else start);
    s[k..]
  }

  /** `data[-len:]`, the window the forecast starts from. It is a suffix of the data of length
      `len` — except that `-0` is `0` in Python, so a zero length selects all of the data. */
  function LastWindow<T>(data: seq<T>, len: nat): (w: seq<T>)
    ensures |w| == if 0 < len <= |data| then len else |data|
    ensures data == data[..|data| - |w|] + w
  {
    PySuffix(data, -(len as int))
  }

  /** `np.append(w[1:], p)`: the window moved one step forward. It drops the oldest value (if
      there is one) and ends with `p`; a non-empty window keeps its length. */
  function Slide<T>(w: seq<T>, p: T): (r: seq<T>)
    ensures |r| == if |w| == 0 then 1 else |w|
    ensures r[|r| - 1] == p
    ensures forall i :: 0 <= i < |r| - 1 ==> r[i] == w[i + 1]
  {
    if |w| == 0 then [p] else w[1..] + [p]
  }

  /** Sliding a training window by its own target gives the next training window. */
  lemma NextTrainingWindow<T>(data: seq<T>, len: nat, i: nat)
    requires 0 < len && i + len < |data|
    ensures Slide(data[i..i + len], data[i + len]) == data[i + 1..i + 1 + len]
  {
  }

  /** The forecast seed is the window that would follow the last training window: the loop
      continues exactly where the training windows stop. */
  lemma SeedFollowsTraining<T>(data: seq<T>, len: nat)
    requires 0 < len < |data|
    ensures Slide(data[|data| - 1 - len..|data| - 1], data[|data| - 1]) == LastWindow(data, len)
  {
  }

  /** With the chosen window length, a series of at least two values gives at least one
      training window and a full-length seed; a single value gives length zero, whose seed
      (the whole series) does not have the window's length. */
  lemma ChosenLengthSeed<T>(data: seq<T>)
    ensures |data| >= 2 ==> |LastWindow(data, SeqLength(|data|))| == SeqLength(|data|) >= 1
    ensures |data| >= 2 ==> |data| - SeqLength(|data|) >= 1
    ensures |data| == 1 ==> SeqLength(|data|) == 0 && LastWindow(data, 0) == data
  {
  }
}
