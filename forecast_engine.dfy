/** The forecast assembler `run_forecast`: for each month of the horizon it
    slices both reference tables, scores each non-empty slice with its
    segment's regressor, zeroes discontinued models, applies the optional
    Model / FuelType / Color selections, stamps the month label and appends
    the rows to the result.

    Each policy step is a function over the rows of a table; `Forecast` is
    the specification of the whole assembly and `RunForecast` the loop that
    computes it step by step. */
module ForecastEngine {
  import opened Wrappers
  import opened Calendar
  import opened Seqs

  /** A row of a reference table (`df_h_ext` or `df_l_ext`). The feature
      columns are opaque to the engine: only the regressor looks at them. */
  datatype RefRow = RefRow(
    model: string,
    fuelType: string,
    color: string,
    yearMonth: Date,
    features: seq<real>)

  /** A reference row with the `Predicted` column added. */
  datatype ScoredRow = ScoredRow(source: RefRow, predicted: int)

  /** A row of the returned table: exactly the five output columns. */
  datatype ForecastRow = ForecastRow(
    forecastMonth: string,
    model: string,
    fuelType: string,
    color: string,
    predicted: int)

  /** The returned table. `NoColumns` is the column-less `pd.DataFrame()`
      returned when no month was processed; `Table` has the five columns and
      may still hold no row, when every processed month was filtered empty. */
  datatype Frame = NoColumns | Table(rows: seq<ForecastRow>)

  /** A trained segment model: one raw prediction per reference row. */
  type Regressor = RefRow -> real

  /** What `load_artifacts` returns, as an immutable handle. */
  datatype Artifacts = Artifacts(
    regHigh: Regressor,
    regLow: Regressor,
    discontinued: set<string>,
    high: seq<RefRow>,
    low: seq<RefRow>)

  /** The optional `selected_models`, `selected_fuels` and `selected_colors` lists. */
  datatype Selection = Selection(
    models: Option<seq<string>>,
    fuels: Option<seq<string>>,
    colors: Option<seq<string>>)

  const NoSelection: Selection := Selection(None, None, None)

  /** The default `correction_factor` of `run_forecast`. */
  const DefaultCorrectionFactor: real := 0.96

  // ----- Slicing a month -----

  function InMonth(m: YearMonth): RefRow -> bool {
    (r: RefRow) => r.yearMonth == MonthStart(m)
  }

  /** `df[df["YearMonth"] == month]`: the rows of that month, duplicates kept, in table order. */
  function SliceMonth(table: seq<RefRow>, m: YearMonth): (r: seq<RefRow>)
    ensures forall x :: x in r <==> x in table && x.yearMonth == MonthStart(m)
  {
    Filter(table, InMonth(m))
  }

  /** Both slices of the month are empty: the month is skipped, which
      happens exactly when neither table holds a row of that month. */
  function Skipped(a: Artifacts, m: YearMonth): (b: bool)
    ensures b <==> forall r :: (r in a.high || r in a.low) ==> r.yearMonth != MonthStart(m)
  {
    var fh := SliceMonth(a.high, m);
    var fl := SliceMonth(a.low, m);
    assert fh != [] ==> fh[0] in fh;
    assert fl != [] ==> fl[0] in fl;
    fh == [] && fl == []
  }

  // ----- Prediction -----

  /** `np.maximum(raw, 0)`. */
  function Clamp(raw: real): (c: real)
    ensures c >= 0.0 && c >= raw
    ensures c == raw || c == 0.0
  {
    if raw < 0.0 then 0.0 else raw
  }

  /** `np.floor(np.maximum(raw, 0) * factor).astype(int)`: clamp, then scale, then floor. */
  function Transform(raw: real, factor: real): (p: int)
    ensures p as real <= Clamp(raw) * factor < p as real + 1.0
  {
    (Clamp(raw) * factor).Floor
  }

  function ScoreWith(reg: Regressor, factor: real): RefRow -> ScoredRow {
    (r: RefRow) => ScoredRow(r, Transform(reg(r), factor))
  }

  /** The `Predicted` column a segment's regressor gives its slice. */
  function Score(rows: seq<RefRow>, reg: Regressor, factor: real): (r: seq<ScoredRow>)
    ensures |r| == |rows|
    ensures forall i :: 0 <= i < |rows| ==>
      r[i].source == rows[i] && r[i].predicted == Transform(reg(rows[i]), factor)
  {
    Map(rows, ScoreWith(reg, factor))
  }

  // ----- Discontinued override -----

  function ZeroIfDiscontinued(discontinued: set<string>): ScoredRow -> ScoredRow {
    (s: ScoredRow) => if s.source.model in discontinued then s.(predicted := 0) else s
  }

  /** `forecast.loc[forecast["Model"].isin(discontinued), "Predicted"] = 0`. */
  function OverrideDiscontinued(rows: seq<ScoredRow>, discontinued: set<string>): (r: seq<ScoredRow>)
    ensures |r| == |rows|
    ensures forall i :: 0 <= i < |rows| ==>
      r[i].source == rows[i].source &&
      r[i].predicted == (if rows[i].source.model in discontinued then 0 else rows[i].predicted)
  {
    Map(rows, ZeroIfDiscontinued(discontinued))
  }

  // ----- Selections -----

  /** Python truthiness of an optional list: `None` and `[]` select nothing;
      a list holding at least one value restricts its dimension. */
  function Active(sel: Option<seq<string>>): (b: bool)
    ensures b <==> sel.Some? && exists v :: v in sel.value
  {
    if sel.Some? && sel.value != [] then
      assert sel.value[0] in sel.value;
      true
    else false
  }

  /** A dimension's selection lets `v` through. */
  predicate Admits(sel: Option<seq<string>>, v: string) {
    !Active(sel) || v in sel.value
  }

  /** All three selections let the row through. */
  predicate Admitted(f: Selection, model: string, fuelType: string, color: string) {
    Admits(f.models, model) && Admits(f.fuels, fuelType) && Admits(f.colors, color)
  }

  function ModelIn(values: seq<string>): ScoredRow -> bool {
    (s: ScoredRow) => s.source.model in values
  }

  function FuelIn(values: seq<string>): ScoredRow -> bool {
    (s: ScoredRow) => s.source.fuelType in values
  }

  function ColorIn(values: seq<string>): ScoredRow -> bool {
    (s: ScoredRow) => s.source.color in values
  }

  function Passes(f: Selection): ScoredRow -> bool {
    (s: ScoredRow) => Admitted(f, s.source.model, s.source.fuelType, s.source.color)
  }

  /** The rows all three selections admit, in order and with their predictions unchanged. */
  function ApplySelection(rows: seq<ScoredRow>, f: Selection): (r: seq<ScoredRow>)
    ensures forall x :: x in r <==>
      x in rows && Admitted(f, x.source.model, x.source.fuelType, x.source.color)
  {
    Filter(rows, Passes(f))
  }

  /** The three `if selected_x:` steps, one after the other, admit exactly the
      rows the conjunction of the selections admits. */
  lemma StepwiseSelection(rows: seq<ScoredRow>, f: Selection)
    ensures
      var byModel := if Active(f.models) then Filter(rows, ModelIn(f.models.value)) else rows;
      var byFuel := if Active(f.fuels) then Filter(byModel, FuelIn(f.fuels.value)) else byModel;
      var byColor := if Active(f.colors) then Filter(byFuel, ColorIn(f.colors.value)) else byFuel;
      byColor == ApplySelection(rows, f)
  {
    var pm: ScoredRow -> bool := (s: ScoredRow) => Admits(f.models, s.source.model);
    var pf: ScoredRow -> bool := (s: ScoredRow) => Admits(f.fuels, s.source.fuelType);
    var pc: ScoredRow -> bool := (s: ScoredRow) => Admits(f.colors, s.source.color);
    var pmf: ScoredRow -> bool := (s: ScoredRow) => pm(s) && pf(s);
    var byModel := if Active(f.models) then Filter(rows, ModelIn(f.models.value)) else rows;
    var byFuel := if Active(f.fuels) then Filter(byModel, FuelIn(f.fuels.value)) else byModel;
    var byColor := if Active(f.colors) then Filter(byFuel, ColorIn(f.colors.value)) else byFuel;
    if Active(f.models) { FilterAgree(rows, ModelIn(f.models.value), pm); } else { FilterAll(rows, pm); }
    assert byModel == Filter(rows, pm);
    if Active(f.fuels) { FilterAgree(byModel, FuelIn(f.fuels.value), pf); } else { FilterAll(byModel, pf); }
    FilterFilter(rows, pm, pf, pmf);
    assert byFuel == Filter(rows, pmf);
    if Active(f.colors) { FilterAgree(byFuel, ColorIn(f.colors.value), pc); } else { FilterAll(byFuel, pc); }
    FilterFilter(rows, pmf, pc, Passes(f));
  }

  // ----- Labelling -----

  function ToForecastRow(monthLabel: string): ScoredRow -> ForecastRow {
    (s: ScoredRow) => ForecastRow(monthLabel, s.source.model, s.source.fuelType, s.source.color, s.predicted)
  }

  /** `forecast["ForecastMonth"] = label` followed by the five-column projection. */
  function Stamp(rows: seq<ScoredRow>, monthLabel: string): (r: seq<ForecastRow>)
    ensures |r| == |rows|
    ensures forall i :: 0 <= i < |rows| ==>
      r[i].forecastMonth == monthLabel && r[i].model == rows[i].source.model &&
      r[i].fuelType == rows[i].source.fuelType && r[i].color == rows[i].source.color &&
      r[i].predicted == rows[i].predicted
  {
    Map(rows, ToForecastRow(monthLabel))
  }

  // ----- The assembly -----

  /** The rows one processed month contributes: high rows then low rows,
      overridden, selected and labelled. */
  function MonthRows(a: Artifacts, factor: real, f: Selection, m: YearMonth): (r: seq<ForecastRow>)
    ensures forall o :: o in r ==> o.forecastMonth == Label(m) && Admitted(f, o.model, o.fuelType, o.color)
  {
    var forecast := Score(SliceMonth(a.high, m), a.regHigh, factor) + Score(SliceMonth(a.low, m), a.regLow, factor);
    Stamp(ApplySelection(OverrideDiscontinued(forecast, a.discontinued), f), Label(m))
  }

  function SkipMonth(a: Artifacts): YearMonth -> bool {
    (m: YearMonth) => Skipped(a, m)
  }

  function RowsOfMonth(a: Artifacts, factor: real, f: Selection): YearMonth -> seq<ForecastRow> {
    (m: YearMonth) => MonthRows(a, factor, f, m)
  }

  /** What `run_forecast(start, n, factor, ...)` returns. */
  function Forecast(a: Artifacts, start: Date, n: nat, factor: real, f: Selection): (r: Frame)
    requires ValidDate(start)
    ensures n == 0 ==> r == NoColumns
  {
    var chunks := Gather(ForecastMonths(start, n), SkipMonth(a), RowsOfMonth(a, factor, f));
    if chunks == [] then NoColumns else Table(Concat(chunks))
  }

  /** `run_forecast`, step by step as the source does it. */
  method RunForecast(a: Artifacts, start: Date, n: nat, factor: real := DefaultCorrectionFactor, f: Selection := NoSelection) returns (result: Frame)
    requires ValidDate(start)
    ensures result == Forecast(a, start, n, factor, f)
  {
    var months := ForecastMonths(start, n);
    var allForecasts: seq<seq<ForecastRow>> := [];
    for i := 0 to |months|
      invariant allForecasts == Gather(months[..i], SkipMonth(a), RowsOfMonth(a, factor, f))
    {
      var month := months[i];
      GatherStep(months, i, SkipMonth(a), RowsOfMonth(a, factor, f));
      var fh := SliceMonth(a.high, month);
      var fl := SliceMonth(a.low, month);
      if fh == [] && fl == [] {
        assert SkipMonth(a)(month);
        continue;
      }
      assert !SkipMonth(a)(month);
      var sh: seq<ScoredRow> := [];
      if fh != [] {
        sh := Score(fh, a.regHigh, factor);
      }
      var sl: seq<ScoredRow> := [];
      if fl != [] {
        sl := Score(fl, a.regLow, factor);
      }
      assert sh == Score(fh, a.regHigh, factor) && sl == Score(fl, a.regLow, factor);
      var forecast := sh + sl;
      forecast := OverrideDiscontinued(forecast, a.discontinued);
      ghost var overridden := forecast;
      StepwiseSelection(forecast, f);
      if Active(f.models) {
        forecast := Filter(forecast, ModelIn(f.models.value));
      }
      if Active(f.fuels) {
        forecast := Filter(forecast, FuelIn(f.fuels.value));
      }
      if Active(f.colors) {
        forecast := Filter(forecast, ColorIn(f.colors.value));
      }
      assert forecast == ApplySelection(overridden, f);
      var stamped := Stamp(forecast, Label(month));
      assert stamped == RowsOfMonth(a, factor, f)(month);
      allForecasts := allForecasts + [stamped];
    }
    assert months[..|months|] == months;
    if allForecasts == [] {
      result := NoColumns;
    } else {
      result := Table(Concat(allForecasts));
    }
  }
}
