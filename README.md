# Forecast assembly of the sales-forecasting dashboard

This project models `run_forecast`, the forecast assembler of a small
sales-forecasting dashboard, and proves what it guarantees about the table it
returns.

`run_forecast(start_month, n_months, correction_factor, selected_models,
selected_fuels, selected_colors, artifact_path)` enumerates `n_months` month starts with
`pd.date_range(start, periods=n, freq="MS")`. For each month it does the following:

- It slices the "high" and "low" reference tables to the rows whose `YearMonth` is that month start.
- It skips the month when both slices are empty.
- It scores each non-empty slice with its segment's regressor and turns the output into `floor(max(raw, 0) * correction_factor)`.
- It concatenates the high rows before the low rows.
- It sets `Predicted = 0` for every discontinued model.
- It applies the optional Model, FuelType and Color selections, stamps the label `"%b %Y"` and appends the month's table to `all_forecasts`.

If no month was processed it returns the column-less `pd.DataFrame()`.
Otherwise it returns the concatenation.

The model is split into these files:

- `seqs.dfy`, module `Seqs`: generic, order-preserving building blocks for the table operations.
  - `Filter` is a boolean-mask selection.
  - `Map` is a per-row column computation.
  - `Concat` is `pd.concat`.
  - `Gather` gives the tables a loop appends, one per item it does not skip.
  - The lemmas relate these operations to each other.
- `calendar.dfy`, modules `Wrappers` and `Calendar`:
  - dates, month starts and the successor month;
  - the month enumeration of `date_range` with its roll-forward of a start that is not the 1st;
  - the `"%b %Y"` label and its inverse.
- `forecast_engine.dfy`, module `ForecastEngine`:
  - the data model (reference rows, scored rows, the five-column output row, the returned frame, the artifact handle, the selections);
  - each policy step as a function;
  - the specification `Forecast`;
  - the imperative `RunForecast`. It loops over the months, reassigns the month's table step by step as the source does, and appends to an accumulator. Its postcondition says that it returns `Forecast(...)`.
- `forecast_properties.dfy`, module `ForecastProperties`: the guarantees of the result, proved about `Forecast`.

The artifacts that `load_artifacts` reads from the directory `artifact_path`
are a parameter that stands in for that path: the two
regressors, the discontinued set and the two reference tables (`Artifacts`).
A regressor is an opaque total function from a reference row to a real number.

The dashboard assumes that the forecast begins with the start's own month.
The date picker is labelled "Forecast start month" (app.py:58-61). The export
file name runs from the start's month to the start plus `n_months - 1` months
(app.py:175-181). The engine's `date_range(..., freq="MS")` instead begins at
the first month start on or after the start date. So a start on any day but
the 1st begins with the following month. The model follows the engine
(`Calendar.ForecastMonths`, `Calendar.FirstForecastMonth`).

`RunForecast` takes the same defaults as `run_forecast`: a correction factor
of 0.96 (`DefaultCorrectionFactor`) and no selection (`NoSelection`).

## Model

| member | source | states |
|---|---|---|
| `Calendar.Next` | forecast_engine.py:66-70 | the successor month is exactly one month later in month ordinal, rolling December into January |
| `Calendar.FirstMonthStart` | forecast_engine.py:65-70 | the first month start is on or after the start date, and no month start on or after the start date is earlier |
| `Calendar.MonthRun` | forecast_engine.py:66-70 | `n` months, the first one given, each the successor of the previous |
| `Calendar.ForecastMonths` | forecast_engine.py:65-70 | exactly `n_months` month starts, all on or after the start, consecutive and ascending, and none skipped before the first |
| `Calendar.FirstForecastMonth` | forecast_engine.py:65-70 | the first forecast month is the start's own month if the day is 1, and the following month otherwise |
| `Calendar.Label` | forecast_engine.py:122 | the label is a three-letter month abbreviation, a space and the year's digits |
| `Calendar.LabelRoundTrip` | forecast_engine.py:122 | reading a label back gives the month it was made from |
| `Calendar.ParseLabel` | forecast_engine.py:122 | the inverse of the label: a string reads back exactly when it is a month abbreviation, a space and one or more digits, and then gives that month and the year those digits spell; `Calendar.LabelRoundTrip` proves it inverts `Calendar.Label` on every month |
| `Calendar.LabelInjective` | forecast_engine.py:122 | two months have the same label exactly when they are the same month |
| `Seqs.Filter` | forecast_engine.py:79-80 | a selection keeps exactly the rows satisfying the mask, and no more rows than the input has |
| `Seqs.FilterMultiplicity` | forecast_engine.py:79-80 | a selection keeps every copy of an admitted row, as often as it occurs in the input |
| `Seqs.Concat` | forecast_engine.py:139 | a row is in the concatenation exactly when it is in one of the parts |
| `Seqs.Gather` | forecast_engine.py:72-134 | the loop appends at most one table per month; by its definition these are the tables of the months it does not skip, in month order, as `Seqs.GatherStep`, `Seqs.GatherEmpty` and `Seqs.GatherMember` state |
| `Seqs.GatherMember` | forecast_engine.py:124-139 | a row of the accumulated result is a row of some processed, not skipped month, and every such row is present |
| `Seqs.GatherOrdered` | forecast_engine.py:124-139 | parts appended in ascending item order give rows in ascending key order |
| `ForecastEngine.SliceMonth` | forecast_engine.py:79-80 | the slice holds exactly the table's rows whose `YearMonth` is the month start |
| `ForecastEngine.Skipped` | forecast_engine.py:82-83 | a month is skipped exactly when neither reference table holds a row of that month |
| `ForecastEngine.Clamp` | forecast_engine.py:90 | `np.maximum(raw, 0)` is non-negative, at least `raw`, and either `raw` or 0 |
| `ForecastEngine.Transform` | forecast_engine.py:89-92 | the prediction is the integer floor of the clamped raw output times the factor |
| `ForecastEngine.Score` | forecast_engine.py:88-98 | one scored row per reference row, in order, each with the transform of its segment regressor's output |
| `ForecastEngine.OverrideDiscontinued` | forecast_engine.py:105-108 | rows keep their order and source row; a discontinued model's prediction becomes 0 and all others keep theirs |
| `ForecastEngine.Active` | forecast_engine.py:113-119 | a selection restricts its dimension exactly when it is a list holding at least one value, so `None` and `[]` are both inactive |
| `ForecastEngine.ApplySelection` | forecast_engine.py:113-120 | a row survives exactly when every non-empty selection lists its Model, FuelType and Color |
| `ForecastEngine.StepwiseSelection` | forecast_engine.py:113-120 | the three `if selected_x:` filters applied one after another equal the AND-combined selection; `None` and `[]` restrict nothing |
| `ForecastEngine.Stamp` | forecast_engine.py:122-134 | every row gets the month label and keeps its Model, FuelType, Color and Predicted, in order |
| `ForecastEngine.MonthRows` | forecast_engine.py:79-134 | every row a processed month contributes carries that month's label and is admitted by the selections |
| `ForecastEngine.Forecast` | forecast_engine.py:43-141 | the result of `run_forecast`, defined as the tables of the non-skipped horizon months concatenated, or the column-less frame when there is none; its contract states that a horizon of 0 months gives the column-less frame, and the `ForecastProperties` lemmas state the rest |
| `ForecastEngine.RunForecast` | forecast_engine.py:43-141 | the loop over the months with its per-month steps and accumulator returns exactly the specified forecast |
| `ForecastProperties.SegmentDirect` | forecast_engine.py:88-122 | one segment's slice, scored, overridden, selected and labelled, equals the month's admitted reference rows mapped to output rows |
| `ForecastProperties.MonthRowsDirect` | forecast_engine.py:79-122 | a processed month's rows are the admitted high-segment rows in table order followed by the admitted low-segment rows in table order |
| `ForecastProperties.MonthRowCount` | forecast_engine.py:79-100 | every admitted reference row yields exactly one output row; without selections a month yields one row per reference row of that month, so duplicates are not merged |
| `ForecastProperties.SliceKeepsDuplicates` | forecast_engine.py:79-80 | a duplicated reference row of the month appears in the slice as often as in the table |
| `ForecastProperties.MonthMembership` | forecast_engine.py:79-122 | a row is in a month's output exactly when some admitted reference row of that month in either table becomes it |
| `ForecastProperties.ProducesNotSkipped` | forecast_engine.py:82-83 | a month that yields a row was not skipped |
| `ForecastProperties.ProducedRowFacts` | forecast_engine.py:89-122 | a produced row carries its month's label, is admitted by the selections, is 0 for a discontinued model, and is non-negative when the factor is |
| `ForecastProperties.ForecastRowsExactly` | forecast_engine.py:72-139 | a row is in the result exactly when some admitted reference row of some horizon month becomes it |
| `ForecastProperties.ForecastRowFacts` | forecast_engine.py:89-122 | every result row is admitted by the selections, has Predicted 0 if its model is discontinued, is non-negative when the factor is, and is labelled with a horizon month |
| `ForecastProperties.SkippedMonthContributesNothing` | forecast_engine.py:82-83 | a month with no reference rows in either table contributes no rows at all, not even zero rows |
| `ForecastProperties.NoColumnsIffAllSkipped` | forecast_engine.py:136-137 | the column-less empty table is returned exactly when every horizon month was skipped |
| `ForecastProperties.MonthRowsLabelled` | forecast_engine.py:122 | every row of a month's output names that month in its label |
| `ForecastProperties.ForecastInMonthOrder` | forecast_engine.py:124-139 | along the result, the months named by the labels never go back: the output follows iteration order |
| `ForecastProperties.MonthSelection` | forecast_engine.py:113-120 | a month's selected rows are its unselected rows with the non-admitted ones removed |
| `ForecastProperties.SelectionOnlyRemoves` | forecast_engine.py:113-120 | selecting only removes rows: the result equals the unselected result filtered by the selections, with no row reordered and no Predicted changed, and selections do not decide whether columns exist |
| `ForecastProperties.AgreeingSelections` | forecast_engine.py:113-120 | two selections that admit the same reference rows give the same result |
| `ForecastProperties.CompleteModelSelection` | forecast_engine.py:113-114 | a Model selection listing every model present gives the same result as no Model selection |
| `ForecastProperties.CompleteFuelSelection` | forecast_engine.py:116-117 | a FuelType selection listing every fuel type present gives the same result as no FuelType selection |
| `ForecastProperties.CompleteColorSelection` | forecast_engine.py:119-120 | a Color selection listing every color present gives the same result as no Color selection |
| `ForecastProperties.TransformNonNegative` | forecast_engine.py:89-92 | with a non-negative factor every prediction is a non-negative integer |
| `ForecastProperties.ClampBeforeScale` | forecast_engine.py:89-92 | a non-positive raw output predicts 0 whatever the factor, because clamping comes before scaling |
| `ForecastProperties.TransformMonotoneInFactor` | forecast_engine.py:89-92 | for a fixed raw output, a larger correction factor never lowers the prediction |
| `ForecastProperties.TransformMonotoneInRaw` | forecast_engine.py:89-92 | with a non-negative factor, a larger raw output never lowers the prediction |
| `ForecastProperties.FloorAfterScale` | forecast_engine.py:89-92 | flooring comes after scaling: 5.0 at factor 0.96 gives 4, and 10.7 at factor 1.0 gives 10 |
| `ForecastProperties.ExampleMonths` | forecast_engine.py:65-70 | two months from 2026-01-01 are January and February 2026 |
| `ForecastProperties.ExampleLabel` | forecast_engine.py:122 | January 2026 is labelled "Jan 2026" |
| `ForecastProperties.ExampleJanuary` | forecast_engine.py:79-134 | January's single high-segment row with raw output 10.7 becomes one row with 10 units, or 0 units if its model is discontinued |
| `ForecastProperties.ExampleForecast` | forecast_engine.py:43-141 | with February empty in both tables, the two-month forecast is exactly that one January row |

## Left out

- `load_artifacts` (forecast_engine.py:10-37) reads model files and pickles from disk. Its results are the `Artifacts` parameter of the model. There is no error model for missing or corrupt files.
- CatBoost's `predict` is an opaque regressor: a total function from a reference row to a real number.
  - The feature-name list and the column selection `fh[features]` are not modelled.
  - The library errors on a feature mismatch are not modelled either.
- Floating point is modelled as exact reals with `.Floor`.
  - NaN and infinite predictions are not modelled.
  - Rounding of the float product is not modelled.
  - Overflow of `astype(int)` is not modelled.
- Times of day are not modelled. The start is a calendar date at midnight, which is what the dashboard's date picker supplies. In pandas, a start with a time of day on the 1st is not rolled forward: the month starts then carry that time of day. They then match no midnight `YearMonth` value, so every month is skipped. The model does not capture that.
- `RefRow.yearMonth` is a date without a time of day, so `ForecastEngine.SliceMonth` assumes that the tables' `YearMonth` values are midnight timestamps.
- Pandas `Timestamp` bounds (years 1677 to 2262) and the out-of-bounds error of `date_range` are not modelled. Years are unbounded naturals.
- The label uses C-locale month abbreviations. Locale-dependent `%b` output is not modelled.
- `Calendar.ParseLabel` is the inverse of `Calendar.Label`, not a model of `strptime`'s `"%b %Y"`. Unlike `strptime`, it matches the abbreviation case-sensitively, and it accepts a year of any number of digits rather than exactly four.
- The horizon is a natural number. A negative horizon is not modelled; the dashboard's slider supplies 1 to 18 (app.py:63-68).
- Column dtypes and pandas warnings (`SettingWithCopyWarning`) are not modelled, because they do not change the rows.
- Determinism needs no lemma: Dafny functions are deterministic, so repeated calls with the same arguments give the same result.
- `ForecastProperties.TransformNonNegative`: non-negativity is proved only for a non-negative correction factor. The code does not clamp after scaling, so a negative factor gives negative predictions. The dashboard limits the factor to 0.70-1.30.
- app.py is not part of this model: the Streamlit page, the monthly totals and the Excel export (file name included) are presentation only.
