# Reservoir forecasting dashboard — verified model of its data-shaping core

The dashboard (`streamlit/app.py`) loads a spreadsheet of time-stamped reservoir
measurements, profiles its data quality, and forecasts the `value` series with ARIMA,
Prophet or an LSTM network. Around the UI and the foreign model libraries, it does a few
exact data-shaping steps. This project models those steps in Dafny and proves what they
guarantee:

- **Series preparation** (`Series`): the `datetime`/`value` rows lose every row with a
  missing field and are sorted by time.
- **Forecast index** (`ForecastIndex`): `pd.date_range(start=last, periods=h + 1, freq='D')[1:]`,
  with instants as integer nanoseconds and a day as a fixed step.
- **LSTM windowing** (`Windows`): `seq_length = min(10, n // 2)`, `create_sequences`, the
  seed window `scaled_data[-seq_length:]` with Python's slicing (`-0` is `0`), and the window
  slide `np.append(w[1:], pred)`.
- **Autoregressive loop** (`Autoregress`): predict, record, slide, `forecast_periods` times.
  The trained network is an uninterpreted function `predict` from a window to a value. The
  reshape to `(1, seq_length, 1)` fails unless the window has exactly `seq_length` values.
- **LSTM branch end to end** (`Forecasting`): the TensorFlow guard, the empty-series failure
  of the scaler, the loop, and the dates of the forecast.
- **Column profile and missing summary** (`Profile`): non-null and missing counts per
  column, the "Missing Values" metric, and the missing-values chart data.
- **Algorithm menu** (`Menu`): ARIMA and Prophet always, LSTM only with TensorFlow.

Helper modules: `Wrappers` (`Option`, `Result`), `Sequences` (order-preserving `Filter`)
and `Sorting` (sorting by an integer key; the contract states sortedness and permutation
only, never stability, because the default pandas sort is not stable).

Three failures of the modelled paths are `Option`/`Result` failures:
- `index[-1]` on an empty series;
- the scaler on an empty series, or its inverse transform on zero predictions;
- the reshape of a window whose length is not `seq_length`.

The other exceptions the dashboard catches (loading, date parsing, model fitting) are
listed under "Left out". Instants are unbounded integers.

Facts about the code that the model keeps:
- `sort_values` uses pandas' default sort, which is not stable.
- The code has no empty-series check of its own. The scaler or `index[-1]` raises instead.
- The code has no horizon check beyond the slider's range of 10 to 100.
- The code has no dedicated insufficient-data check. A one-point series gives
  `seq_length = 0`, and the branch then fails at the latest at the reshape.

## Model

| member | source | states |
|---|---|---|
| Series.Complete | streamlit/app.py:145 | `dropna` keeps exactly the complete rows: each point occurs exactly as many times as a row with both of its fields occurs |
| Series.CompleteAppend | streamlit/app.py:145 | dropping incomplete rows keeps table order: it distributes over concatenation |
| Series.CompleteCount | streamlit/app.py:145 | each row is either kept or counted among the rows with a missing field |
| Series.Prepare | streamlit/app.py:144-146 | the prepared series is a permutation of exactly the complete rows, chronological (non-decreasing in time), and its last point has the latest instant |
| Series.LastInstant | streamlit/app.py:173 | `index[-1]` fails exactly on an empty series; otherwise it is the instant of an observation, and on a chronological series the latest one |
| Sorting.SortBy | streamlit/app.py:145 | the result is sorted by the key and is a permutation of the input |
| ForecastIndex.DateRange | streamlit/app.py:172-175 | `date_range(start, count, 'D')` has `count` entries; the first is `start` and each next one is a day after the previous one |
| ForecastIndex.Continuation | streamlit/app.py:172-176 | the index has `forecast_periods` entries, entry k (0-based) is `last + (k+1)` days, strictly increasing, each after `last`, consecutive entries one day apart |
| ForecastIndex.ContinuationPrefix | streamlit/app.py:286-290 | a longer horizon only extends the index; the first q dates do not depend on it |
| Windows.SeqLength | streamlit/app.py:260 | `seq_length` is at most 10 and at most half of n (so it leaves at least `seq_length` windows), and is the largest such value; it is at least 1 when n ≥ 2 |
| Windows.CreateSequences | streamlit/app.py:253-258 | equally many windows and targets, `max(0, n - L)` of each; window i is `data[i..i+L)` and target i is `data[i+L]` |
| Windows.LastWindow | streamlit/app.py:277 | `data[-L:]` is a suffix of length L when 0 < L ≤ n; a zero length selects the whole series |
| Windows.Slide | streamlit/app.py:283 | the slid window drops the oldest value, ends with the prediction, and keeps the length of a non-empty window |
| Windows.NextTrainingWindow | streamlit/app.py:255-257 | sliding a training window by its target gives the next training window |
| Windows.SeedFollowsTraining | streamlit/app.py:253-277 | the forecast seed is the window that would follow the last training window |
| Windows.ChosenLengthSeed | streamlit/app.py:260-281 | with n ≥ 2 the seed has the chosen length (≥ 1) and there is a training window; with n = 1 the length is 0 and the seed is the whole series |
| Autoregress.Rollout | streamlit/app.py:277-283 | the loop succeeds exactly when every reshape gets a window of `seq_length` values; it then emits `forecast_periods` predictions in order, each made from the preceding `seq_length` values of seed-plus-predictions |
| Autoregress.Trace | streamlit/app.py:280-283 | after k turns there are k predictions; a non-empty window keeps its length, and an empty seed holds one value after any turn |
| Autoregress.RolloutStep | streamlit/app.py:281-283 | one turn extends the rollout by the prediction from the current window, and the slid window is again the last `seq_length` values of seed-plus-predictions |
| Autoregress.TraceIsRollout | streamlit/app.py:277-283 | the predictions after any number of turns form a rollout of the seed (for an empty seed, up to one turn) |
| Autoregress.RolloutUnique | streamlit/app.py:277-283 | the predictions are determined by the seed, the horizon and the network |
| Autoregress.RolloutPrefix | streamlit/app.py:280-283 | a truncated rollout is the rollout of the shorter horizon, so predictions are committed in order |
| Forecasting.LstmForecast | streamlit/app.py:239-290 | without TensorFlow the branch stops; an empty series fails; otherwise it succeeds iff n ≥ 2 and `forecast_periods` ≥ 1, and a zero horizon fails at the inverse transform; on success it has `forecast_periods` values and strictly increasing daily dates starting one day after `index[-1]` (line 287), after every observation, and the values are the rollout from `scaled_data[-seq_length:]` |
| Forecasting.ChosenLengthRollout | streamlit/app.py:260-283 | with `seq_length = min(10, n // 2)` and n ≥ 1, the loop gets past every reshape iff n ≥ 2 or there is no step |
| Forecasting.DatesFollowHistory | streamlit/app.py:172-176 | every forecast date is after every observation of a chronological series |
| Profile.CountsPartition | streamlit/app.py:60-64 | non-null count plus missing count equals the number of cells |
| Profile.NoMissingIffAllPresent | streamlit/app.py:64 | a column has no missing count exactly when every cell is present |
| Profile.ColumnProfile | streamlit/app.py:60-64 | one row per column, in order, with that column's name and missing count, and non-null + missing = row count |
| Profile.MissingMetricIsColumnSum | streamlit/app.py:51-64 | the "Missing Values" metric (`MissingValues`, the missing cells of the whole table) equals the sum of the per-column missing counts of the profile |
| Profile.MissingByColumn | streamlit/app.py:125 | `isnull().sum()` at line 125 has one entry per column, in order, agreeing in name and count with the profile's "Missing" column at line 64 |
| Profile.MissingByColumnSumsToMetric | streamlit/app.py:51-125 | the per-column counts of the chart data add up to the "Missing Values" metric |
| Profile.MissingSummary | streamlit/app.py:125-126 | the summary holds exactly the columns with a positive missing count, with their counts, non-increasing |
| Profile.SummaryListsColumnsWithMissing | streamlit/app.py:125-126 | a column is in the summary iff it has a missing cell |
| Profile.SummaryEmptyIffNoMissing | streamlit/app.py:125-133 | when the table has a 'datetime' column, the chart is shown iff the "Missing Values" metric is non-zero |
| Menu.Algorithms | streamlit/app.py:153-155 | ARIMA then Prophet always; LSTM is offered iff TensorFlow is available; no duplicates |
| Menu.Labels | streamlit/app.py:153-156 | the selector shows "ARIMA", "Prophet", and "LSTM" iff TensorFlow is available |
| Menu.SelectionNeverLacksDependency | streamlit/app.py:153-158 | no menu choice is LSTM without TensorFlow, so the missing-TensorFlow warning cannot be reached from the menu |

## Left out

- Streamlit widgets, tabs, spinners, messages and plotly/matplotlib figures: these are UI with no data logic.
- Loading with `pd.read_excel`: this is I/O. Parsing with `pd.to_datetime`: this is a foreign parser. Rows enter the model already parsed, and a missing time (NaT) is `None`. An unparseable time makes `pd.to_datetime` raise, and the handler at line 316 aborts the page; that path is not modelled.
- The `'datetime' in df.columns and 'value' in df.columns` guard and the column projection: the model starts from the projected rows.
- ARIMA fitting, forecasting and summary (statsmodels), and Prophet fitting, prediction and components: these are opaque foreign libraries. The ARIMA branch shares the forecast index, which is modelled.
- Building and training the Keras network: a foreign library. The loop takes the trained network as the function `predict`, and training failures are not modelled.
- Forecasting.LstmForecast: the series values stand for the scaled values, because `MinMaxScaler` scaling and its inverse are floating-point work on a foreign class. Only the scaler's failures are modelled: fitting it on an empty series, and inverse-transforming zero predictions. On one or more predictions the inverse transform maps each value on its own, so it changes neither their count nor their order.
- Forecasting.LstmForecast: with `seq_length = 0`, building or fitting the network on zero-length windows may already fail before the loop. The model reports this case as the reshape failure, which is where it fails at the latest, or as `NoPredictions` when there is no step.
- Profile.MissingByColumn, Profile.MissingByColumnSumsToMetric and Profile.SummaryEmptyIffNoMissing: the model takes lines 51, 64 and 125 from one table. In the code, line 78 converts the 'datetime' column with `pd.to_datetime` between lines 51/64 and line 125, and that conversion turns text cells such as "NaT" into missing values. The three rows hold only when line 78 turns no present cell into NaT. Lines 124-133 also run only when the table has a 'datetime' column (line 77); otherwise neither the chart nor the success message appears.
- The `Missing %` column and its rounding, `describe()`, `corr()` and histogram binning: floating point.
- Column dtypes in the column profile: they come from pandas' type inference.
- The sort inside the exploration tab: that view only plots.
- ForecastIndex.Continuation: instants are unbounded, so the pandas timestamp range limit (past the year 2262, `OutOfBoundsDatetime`) is not modelled.
- The try/except blocks: each failure is a `None` or `Failure` value; the message shown is UI.
- Horizon limits: the slider bounds the horizon to 10–100. The modelled operations accept any natural horizon, and no other check is added.
