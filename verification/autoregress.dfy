/** The autoregressive forecast loop of the recurrent model: predict one step from the current
    window, record it, slide the window over it, repeat. The trained network is the
    uninterpreted function `predict`. */
module Autoregress {
  import opened Wrappers
  import opened Windows

  /** `preds` is what feeding predictions back produces from the seed `w0`: every prediction is
      made from the `|w0|` values just before it in the seed followed by the predictions. */
  ghost predicate IsRollout<T>(w0: seq<T>, preds: seq<T>, predict: seq<T> -> T) {
    forall k :: 0 <= k < |preds| ==> preds[k] == predict((w0 + preds)[k..k + |w0|])
  }

  /** The loop gets past every reshape: there is no step, or the seed has the window length and
      either that length is positive or there is one step only (after one step from an empty
      seed the window holds one value, which is not a window of length zero). */
  predicate Completes(seedLength: nat, len: nat, periods: nat) {
    periods == 0 || (seedLength == len && (len > 0 || periods == 1))
  }

  /** The window and the predictions after `steps` turns of the loop, when no reshape fails:
      each turn predicts from the window, records the prediction and slides the window over
      it. A non-empty seed keeps its length; an empty one holds one value after any turn. */
  function Trace<T>(w0: seq<T>, steps: nat, predict: seq<T> -> T): (r: (seq<T>, seq<T>))
    ensures |r.1| == steps
    ensures |w0| > 0 ==> |r.0| == |w0|
    ensures |w0| == 0 && steps > 0 ==> |r.0| == 1
  {
    if steps == 0 then (w0, [])
    else
      var (w, ps) := Trace(w0, steps - 1, predict);
      (Slide(w, predict(w)), ps + [predict(w)])
  }

  /** The loop of the forecast: `periods` predictions from the seed `history[-len:]`. Each call
      of the network reshapes the window to `(1, len, 1)`, which raises (here: `None`) unless
      the window holds exactly `len` values. After the first step the window holds one
      value, so a zero length fails at once on a non-empty seed and at the second step on an
      empty one. */
  method Rollout<T>(history: seq<T>, len: nat, periods: nat, predict: seq<T> -> T)
    returns (r: Option<seq<T>>)
    ensures r.Some? <==> Completes(|LastWindow(history, len)|, len, periods)
    ensures r.Some? ==> |r.value| == periods
    ensures r.Some? ==> IsRollout(LastWindow(history, len), r.value, predict)
  {
    var w0 := LastWindow(history, len);
    var window := w0;
    var preds: seq<T> := [];
    var k := 0;
    while k < periods
      invariant 0 <= k <= periods
      invariant (window, preds) == Trace(w0, k, predict)
      invariant k > 0 ==> |w0| == len
      invariant k > 0 && len == 0 ==> k == 1
    {
      if |window| != len {
        return None;
      }
      var p := predict(window);
      preds := preds + [p];
      window := Slide(window, p);
      k := k + 1;
    }
    TraceIsRollout(w0, periods, predict);
    return Some(preds);
  }

  /** The predictions of the loop form a rollout of the seed, and the window is always the
      last `|w0|` values of the seed followed by the predictions. With an empty seed this
      holds only up to one step, since the window then stops being empty. */
  lemma {:induction false} TraceIsRollout<T>(w0: seq<T>, steps: nat, predict: seq<T> -> T)
    requires |w0| > 0 || steps <= 1
    ensures IsRollout(w0, Trace(w0, steps, predict).1, predict)
    ensures |w0| > 0 || steps == 0 ==>
              Trace(w0, steps, predict).0 == (w0 + Trace(w0, steps, predict).1)[steps..steps + |w0|]
  {
    if steps > 0 {
      var prev := Trace(w0, steps - 1, predict);
      var w, ps := prev.0, prev.1;
      var p := predict(w);
      var t := Trace(w0, steps, predict);
      assert t.0 == Slide(w, p) && t.1 == ps + [p];
      TraceIsRollout(w0, steps - 1, predict);
      RolloutStep(w0, ps, w, p, predict);
    }
  }

  /** One turn of the loop: predicting from the current window extends the rollout, and the
      slid window is again the last `|w0|` values of the seed followed by the predictions. */
  lemma RolloutStep<T>(w0: seq<T>, preds: seq<T>, window: seq<T>, p: T, predict: seq<T> -> T)
    requires IsRollout(w0, preds, predict)
    requires window == (w0 + preds)[|preds|..|preds| + |w0|]
    requires p == predict(window)
    ensures IsRollout(w0, preds + [p], predict)
    ensures |w0| > 0 ==> Slide(window, p) == (w0 + (preds + [p]))[|preds| + 1..|preds| + 1 + |w0|]
  {
    var before := w0 + preds;
    var after := preds + [p];
    assert w0 + after == before + [p];
    forall j | 0 <= j < |after|
      ensures after[j] == predict((w0 + after)[j..j + |w0|])
    {
      assert (w0 + after)[j..j + |w0|] == before[j..j + |w0|];
    }
  }

  /** Two runs of the loop from the same seed with the same network agree: the rollout is
      determined by the seed, the horizon and the network. */
  lemma {:induction false} RolloutUnique<T>(w0: seq<T>, a: seq<T>, b: seq<T>, predict: seq<T> -> T)
    requires IsRollout(w0, a, predict) && IsRollout(w0, b, predict)
    requires |a| == |b|
    ensures a == b
  {
    PrefixesAgree(w0, a, b, predict, |a|);
    assert a == a[..|a|] && b == b[..|b|];
  }

  lemma {:induction false} PrefixesAgree<T>(w0: seq<T>, a: seq<T>, b: seq<T>, predict: seq<T> -> T, n: nat)
    requires IsRollout(w0, a, predict) && IsRollout(w0, b, predict)
    requires n <= |a| == |b|
    ensures a[..n] == b[..n]
  {
    if n > 0 {
      var k := n - 1;
      PrefixesAgree(w0, a, b, predict, k);
      assert (w0 + a)[k..k + |w0|] == (w0 + a[..k])[k..];
      assert (w0 + b)[k..k + |w0|] == (w0 + b[..k])[k..];
      assert a[k] == b[k];
      assert a[..n] == a[..k] + [a[k]];
      assert b[..n] == b[..k] + [b[k]];
    }
  }

  /** A rollout truncated to fewer steps is the rollout of that horizon: emitting the
      predictions one by one commits to them in order. */
  lemma RolloutPrefix<T>(w0: seq<T>, preds: seq<T>, predict: seq<T> -> T, n: nat)
    requires IsRollout(w0, preds, predict)
    requires n <= |preds|
    ensures IsRollout(w0, preds[..n], predict)
  {
    forall k | 0 <= k < n
      ensures preds[..n][k] == predict((w0 + preds[..n])[k..k + |w0|])
    {
      assert (w0 + preds[..n])[k..k + |w0|] == (w0 + preds)[k..k + |w0|];
    }
  }
}
