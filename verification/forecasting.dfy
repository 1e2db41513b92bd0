/** The LSTM branch of the forecasting tab, end to end: from the prepared series to the
    forecast values and the dates they are plotted at. The series values stand for the scaled
    values and `predict` for the trained network; of the min-max scaling only the failures of
    the scaler are modelled. */
module Forecasting {
  import opened Wrappers
  import opened Series
  import opened Windows
  import opened Autoregress
  import ForecastIndex

  datatype ForecastError =
    | TensorflowMissing   // the branch stops when TensorFlow could not be imported
    | NoSamples           // the scaler is fitted on an empty series
    | WindowShape         // the window cannot be reshaped to (1, seq_length, 1)
    | NoPredictions       // the scaler's inverse transform is given zero predictions

  /** The plotted forecast: its dates and its values. */
  datatype Forecast = Forecast(index: seq<int>, values: seq<real>)

  /** The LSTM forecast of `periods` steps. On a non-empty series it succeeds exactly when the
      series has at least two points and there is at least one step to take. It then yields
      one value per step, each predicted from the window of the `seq_length` preceding values,
      dated one day apart after the last observation. */
  method LstmForecast(tensorflowAvailable: bool, series: seq<Point>, periods: nat,
                      predict: seq<real> -> real)
    returns (r: Result<Forecast, ForecastError>)
    ensures !tensorflowAvailable ==> r == Failure(TensorflowMissing)
    ensures tensorflowAvailable && |series| == 0 ==> r == Failure(NoSamples)
    ensures tensorflowAvailable && |series| > 0 ==> (r.Success? <==> |series| >= 2 && periods >= 1)
    ensures tensorflowAvailable && |series| > 0 && periods == 0 ==> r == Failure(NoPredictions)
    ensures r.Success? ==> |r.value.index| == periods && |r.value.values| == periods
    ensures r.Success? ==> LastInstant(series).Some? && forall k :: 0 <= k < periods ==>
              r.value.index[k] == LastInstant(series).value + (k + 1) * ForecastIndex.Day
    ensures r.Success? ==> forall i, j :: 0 <= i < j < periods ==> r.value.index[i] < r.value.index[j]
    ensures r.Success? && Chronological(series) ==>
              forall i, k :: 0 <= i < |series| && 0 <= k < periods ==> series[i].time < r.value.index[k]
    ensures r.Success? ==>
              IsRollout(LastWindow(Values(series), SeqLength(|series|)), r.value.values, predict)
  {
    if !tensorflowAvailable {
      return Failure(TensorflowMissing);
    }
    if |series| == 0 {
      return Failure(NoSamples);
    }
    var data := Values(series);
    var preds := Rollout(data, SeqLength(|data|), periods, predict);
    ChosenLengthRollout(data, periods);
    if preds.None? {
      return Failure(WindowShape);
    }
    if periods == 0 {
      return Failure(NoPredictions);
    }
    var index := ForecastIndex.Continuation(LastInstant(series).value, periods);
    DatesFollowHistory(series, index);
    return Success(Forecast(index, preds.value));
  }

  /** With the chosen window length, the loop gets past every reshape exactly when the series
      has at least two values or there is no step to take. */
  lemma ChosenLengthRollout(data: seq<real>, periods: nat)
    requires |data| > 0
    ensures var len := SeqLength(|data|);
            Completes(|LastWindow(data, len)|, len, periods) <==> (|data| >= 2 || periods == 0)
  {
    ChosenLengthSeed(data);
  }

  /** Every forecast date lies after every observation of a chronological series. */
  lemma DatesFollowHistory(series: seq<Point>, index: seq<int>)
    requires LastInstant(series).Some?
    requires index == ForecastIndex.Continuation(LastInstant(series).value, |index|)
    ensures Chronological(series) ==>
              forall i, k :: 0 <= i < |series| && 0 <= k < |index| ==> series[i].time < index[k]
  {
  }
}
