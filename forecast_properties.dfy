/** What `run_forecast` guarantees about its result, proved about the
    specification `ForecastEngine.Forecast` that `RunForecast` computes. */
module ForecastProperties {
  import opened Wrappers
  import opened Calendar
  import opened Seqs
  import opened ForecastEngine

  /** The rows of a returned table (the column-less table has none). */
  function Rows(fr: Frame): seq<ForecastRow> {
    if fr.NoColumns? then [] else fr.rows
  }

  /** The `Predicted` value a reference row of a segment ends up with. */
  function Prediction(reg: Regressor, discontinued: set<string>, factor: real, r: RefRow): int {
    if r.model in discontinued then 0 else Transform(reg(r), factor)
  }

  /** A reference row is of month `m` and the selections admit it. */
  function Selected(f: Selection, m: YearMonth): RefRow -> bool {
    (r: RefRow) => r.yearMonth == MonthStart(m) && Admitted(f, r.model, r.fuelType, r.color)
  }

  /** The output row a selected reference row of a segment becomes. */
  function Emit(reg: Regressor, discontinued: set<string>, factor: real, m: YearMonth): RefRow -> ForecastRow {
    (r: RefRow) => ForecastRow(Label(m), r.model, r.fuelType, r.color, Prediction(reg, discontinued, factor, r))
  }

  /** Output row `o` is what reference row `r`, scored by `reg`, becomes in month `m`. */
  predicate Explains(reg: Regressor, discontinued: set<string>, factor: real, f: Selection, m: YearMonth, r: RefRow, o: ForecastRow) {
    Selected(f, m)(r) && o == Emit(reg, discontinued, factor, m)(r)
  }

  /** Some reference row of either table becomes `o` in month `m`. */
  ghost predicate Produces(a: Artifacts, factor: real, f: Selection, m: YearMonth, o: ForecastRow) {
    exists r ::
      (r in a.high && Explains(a.regHigh, a.discontinued, factor, f, m, r, o)) ||
      (r in a.low && Explains(a.regLow, a.discontinued, factor, f, m, r, o))
  }

  // ----- One month -----

  lemma SegmentDirect(t: seq<RefRow>, reg: Regressor, discontinued: set<string>, factor: real, f: Selection, m: YearMonth)
    ensures Stamp(ApplySelection(OverrideDiscontinued(Score(SliceMonth(t, m), reg, factor), discontinued), f), Label(m))
         == Map(Filter(t, Selected(f, m)), Emit(reg, discontinued, factor, m))
  {
    var x := SliceMonth(t, m);
    var scored := (r: RefRow) => ScoredRow(r, Prediction(reg, discontinued, factor, r));
    var admitted := (r: RefRow) => Admitted(f, r.model, r.fuelType, r.color);
    MapMap(x, ScoreWith(reg, factor), ZeroIfDiscontinued(discontinued), scored);
    FilterMap(x, scored, Passes(f), admitted);
    MapMap(Filter(x, admitted), scored, ToForecastRow(Label(m)), Emit(reg, discontinued, factor, m));
    FilterFilter(t, InMonth(m), admitted, Selected(f, m));
  }

  /** A processed month's rows, stated without the intermediate tables: the
      selected high-segment rows in table order, then the selected low-segment
      rows in table order, each labelled with the month and carrying its
      (possibly overridden) prediction. */
  lemma MonthRowsDirect(a: Artifacts, factor: real, f: Selection, m: YearMonth)
    ensures MonthRows(a, factor, f, m) ==
      Map(Filter(a.high, Selected(f, m)), Emit(a.regHigh, a.discontinued, factor, m)) +
      Map(Filter(a.low, Selected(f, m)), Emit(a.regLow, a.discontinued, factor, m))
  {
    var sh := Score(SliceMonth(a.high, m), a.regHigh, factor);
    var sl := Score(SliceMonth(a.low, m), a.regLow, factor);
    var z := ZeroIfDiscontinued(a.discontinued);
    var t := ToForecastRow(Label(m));
    MapConcat(sh, sl, z);
    FilterConcat(Map(sh, z), Map(sl, z), Passes(f));
    MapConcat(Filter(Map(sh, z), Passes(f)), Filter(Map(sl, z), Passes(f)), t);
    SegmentDirect(a.high, a.regHigh, a.discontinued, factor, f, m);
    SegmentDirect(a.low, a.regLow, a.discontinued, factor, f, m);
  }

  /** Every selected reference row of the month yields exactly one output row:
      nothing is deduplicated, and without selections a month yields one row
      per reference row of that month in either table. */
  lemma MonthRowCount(a: Artifacts, factor: real, f: Selection, m: YearMonth)
    ensures |MonthRows(a, factor, f, m)| == |Filter(a.high, Selected(f, m))| + |Filter(a.low, Selected(f, m))|
    ensures f == NoSelection ==>
      |MonthRows(a, factor, f, m)| == |SliceMonth(a.high, m)| + |SliceMonth(a.low, m)|
  {
    MonthRowsDirect(a, factor, f, m);
    if f == NoSelection {
      FilterAgree(a.high, Selected(f, m), InMonth(m));
      FilterAgree(a.low, Selected(f, m), InMonth(m));
    }
  }

  /** Slicing a month keeps duplicate reference rows: a row of that month
      occurs in the slice as often as in the table. */
  lemma SliceKeepsDuplicates(table: seq<RefRow>, m: YearMonth, r: RefRow)
    ensures multiset(SliceMonth(table, m))[r] ==
      if r.yearMonth == MonthStart(m) then multiset(table)[r] else 0
  {
    FilterMultiplicity(table, InMonth(m), r);
  }

  /** A row is among a month's rows exactly when some reference row of that month becomes it. */
  lemma MonthMembership(a: Artifacts, factor: real, f: Selection, m: YearMonth, o: ForecastRow)
    ensures o in MonthRows(a, factor, f, m) <==> Produces(a, factor, f, m, o)
  {
    MonthRowsDirect(a, factor, f, m);
    MapFilterMember(a.high, Selected(f, m), Emit(a.regHigh, a.discontinued, factor, m), o);
    MapFilterMember(a.low, Selected(f, m), Emit(a.regLow, a.discontinued, factor, m), o);
  }

  /** A month that yields an output row was not skipped. */
  lemma ProducesNotSkipped(a: Artifacts, factor: real, f: Selection, m: YearMonth, o: ForecastRow)
    requires Produces(a, factor, f, m, o)
    ensures !Skipped(a, m)
  {
    var r :|
      (r in a.high && Explains(a.regHigh, a.discontinued, factor, f, m, r, o)) ||
      (r in a.low && Explains(a.regLow, a.discontinued, factor, f, m, r, o));
    assert r in SliceMonth(a.high, m) || r in SliceMonth(a.low, m);
  }

  // ----- The whole horizon -----

  /** The rows of the result are exactly the rows some reference row of a
      horizon month becomes: each one comes from a selected reference row of
      a month of the horizon, and every such reference row appears. */
  lemma ForecastRowsExactly(a: Artifacts, start: Date, n: nat, factor: real, f: Selection, o: ForecastRow)
    requires ValidDate(start)
    ensures var months := ForecastMonths(start, n);
      o in Rows(Forecast(a, start, n, factor, f)) <==>
      exists i :: 0 <= i < n && Produces(a, factor, f, months[i], o)
  {
    var months := ForecastMonths(start, n);
    GatherMember(months, SkipMonth(a), RowsOfMonth(a, factor, f), o);
    if o in Rows(Forecast(a, start, n, factor, f)) {
      var i :| 0 <= i < |months| && !SkipMonth(a)(months[i]) && o in RowsOfMonth(a, factor, f)(months[i]);
      MonthMembership(a, factor, f, months[i], o);
    }
    if exists i :: 0 <= i < n && Produces(a, factor, f, months[i], o) {
      var i :| 0 <= i < n && Produces(a, factor, f, months[i], o);
      ProducedRowIsGathered(a, factor, f, months, i, o);
    }
  }

  /** A row a month of the loop produces is among the gathered rows. */
  lemma ProducedRowIsGathered(a: Artifacts, factor: real, f: Selection, months: seq<YearMonth>, i: int, o: ForecastRow)
    requires 0 <= i < |months| && Produces(a, factor, f, months[i], o)
    ensures o in Concat(Gather(months, SkipMonth(a), RowsOfMonth(a, factor, f)))
  {
    ProducesNotSkipped(a, factor, f, months[i], o);
    MonthMembership(a, factor, f, months[i], o);
    GatherMember(months, SkipMonth(a), RowsOfMonth(a, factor, f), o);
    assert !SkipMonth(a)(months[i]) && o in RowsOfMonth(a, factor, f)(months[i]);
  }

  /** What a row produced in month `m` carries. */
  lemma ProducedRowFacts(a: Artifacts, factor: real, f: Selection, m: YearMonth, o: ForecastRow)
    requires Produces(a, factor, f, m, o)
    ensures o.forecastMonth == Label(m)
    ensures Admitted(f, o.model, o.fuelType, o.color)
    ensures o.model in a.discontinued ==> o.predicted == 0
    ensures factor >= 0.0 ==> o.predicted >= 0
  {
    var r :|
      (r in a.high && Explains(a.regHigh, a.discontinued, factor, f, m, r, o)) ||
      (r in a.low && Explains(a.regLow, a.discontinued, factor, f, m, r, o));
    var reg := if r in a.high && Explains(a.regHigh, a.discontinued, factor, f, m, r, o) then a.regHigh else a.regLow;
    assert o == Emit(reg, a.discontinued, factor, m)(r);
    if factor >= 0.0 {
      TransformNonNegative(reg(r), factor);
    }
  }

  /** Per-row guarantees of the result: its label names a month of the
      horizon, the selections admit it, a discontinued model predicts 0, and
      with a non-negative correction factor every prediction is a
      non-negative integer. */
  lemma ForecastRowFacts(a: Artifacts, start: Date, n: nat, factor: real, f: Selection, o: ForecastRow)
    requires ValidDate(start)
    requires o in Rows(Forecast(a, start, n, factor, f))
    ensures Admitted(f, o.model, o.fuelType, o.color)
    ensures o.model in a.discontinued ==> o.predicted == 0
    ensures factor >= 0.0 ==> o.predicted >= 0
    ensures exists i :: 0 <= i < n && o.forecastMonth == Label(ForecastMonths(start, n)[i])
  {
    var months := ForecastMonths(start, n);
    ForecastRowsExactly(a, start, n, factor, f, o);
    var i :| 0 <= i < n && Produces(a, factor, f, months[i], o);
    ProducedRowFacts(a, factor, f, months[i], o);
  }

  /** A month with no reference row in either table contributes no row at
      all, not even a zero-valued one. */
  lemma SkippedMonthContributesNothing(a: Artifacts, start: Date, n: nat, factor: real, f: Selection, m: YearMonth)
    requires ValidDate(start)
    requires Skipped(a, m)
    ensures forall o :: o in Rows(Forecast(a, start, n, factor, f)) ==> o.forecastMonth != Label(m)
  {
    var months := ForecastMonths(start, n);
    forall o | o in Rows(Forecast(a, start, n, factor, f))
      ensures o.forecastMonth != Label(m)
    {
      ForecastRowsExactly(a, start, n, factor, f, o);
      var i :| 0 <= i < n && Produces(a, factor, f, months[i], o);
      ProducesNotSkipped(a, factor, f, months[i], o);
      ProducedRowFacts(a, factor, f, months[i], o);
      LabelInjective(months[i], m);
    }
  }

  /** The column-less empty table comes back exactly when every month of the
      horizon was skipped; in particular for an empty horizon. */
  lemma NoColumnsIffAllSkipped(a: Artifacts, start: Date, n: nat, factor: real, f: Selection)
    requires ValidDate(start)
    ensures Forecast(a, start, n, factor, f).NoColumns? <==>
      forall i :: 0 <= i < n ==> Skipped(a, ForecastMonths(start, n)[i])
  {
    GatherEmpty(ForecastMonths(start, n), SkipMonth(a), RowsOfMonth(a, factor, f));
  }

  // ----- Order -----

  /** The month a row's label names. */
  function LabelMonth(o: ForecastRow): YearMonth {
    match ParseLabel(o.forecastMonth)
    case Some(m) => m
    case None => YearMonth(0, 1)
  }

  lemma MonthRowsLabelled(a: Artifacts, factor: real, f: Selection, m: YearMonth, o: ForecastRow)
    requires o in MonthRows(a, factor, f, m)
    ensures LabelMonth(o) == m
  {
    LabelRoundTrip(m);
  }

  /** The result lists the months in iteration order: along the table the
      months named by the labels never go back. */
  lemma ForecastInMonthOrder(a: Artifacts, start: Date, n: nat, factor: real, f: Selection)
    requires ValidDate(start)
    ensures forall p, q :: 0 <= p < q < |Rows(Forecast(a, start, n, factor, f))| ==>
      Ordinal(LabelMonth(Rows(Forecast(a, start, n, factor, f))[p])) <=
      Ordinal(LabelMonth(Rows(Forecast(a, start, n, factor, f))[q]))
  {
    var months := ForecastMonths(start, n);
    var ord := (m: YearMonth) => Ordinal(m);
    var key := (o: ForecastRow) => Ordinal(LabelMonth(o));
    forall i, x | 0 <= i < |months| && x in RowsOfMonth(a, factor, f)(months[i])
      ensures key(x) == ord(months[i])
    {
      MonthRowsLabelled(a, factor, f, months[i], x);
    }
    GatherOrdered(months, SkipMonth(a), RowsOfMonth(a, factor, f), ord, key);
  }

  // ----- Selections -----

  /** An output row's dimensions are admitted by `f`. */
  function OutputAdmitted(f: Selection): ForecastRow -> bool {
    (o: ForecastRow) => Admitted(f, o.model, o.fuelType, o.color)
  }

  lemma MonthSelection(a: Artifacts, factor: real, f: Selection, m: YearMonth)
    ensures MonthRows(a, factor, f, m) == Filter(MonthRows(a, factor, NoSelection, m), OutputAdmitted(f))
  {
    var sh := Score(SliceMonth(a.high, m), a.regHigh, factor);
    var sl := Score(SliceMonth(a.low, m), a.regLow, factor);
    var overridden := OverrideDiscontinued(sh + sl, a.discontinued);
    FilterAll(overridden, Passes(NoSelection));
    FilterMap(overridden, ToForecastRow(Label(m)), OutputAdmitted(f), Passes(f));
  }

  /** Selections only remove rows: the selected result is the unselected one
      with the rows the selections do not admit taken out, nothing reordered
      and no prediction changed; whether the table has columns does not depend
      on the selections. */
  lemma SelectionOnlyRemoves(a: Artifacts, start: Date, n: nat, factor: real, f: Selection)
    requires ValidDate(start)
    ensures Forecast(a, start, n, factor, f).NoColumns? == Forecast(a, start, n, factor, NoSelection).NoColumns?
    ensures Rows(Forecast(a, start, n, factor, f)) ==
      Filter(Rows(Forecast(a, start, n, factor, NoSelection)), OutputAdmitted(f))
  {
    var months := ForecastMonths(start, n);
    forall i | 0 <= i < |months|
      ensures RowsOfMonth(a, factor, f)(months[i]) ==
        Filter(RowsOfMonth(a, factor, NoSelection)(months[i]), OutputAdmitted(f))
    {
      MonthSelection(a, factor, f, months[i]);
    }
    GatherFilter(months, SkipMonth(a), RowsOfMonth(a, factor, f), RowsOfMonth(a, factor, NoSelection), OutputAdmitted(f));
  }

  /** Two selections that admit the same reference rows give the same result. */
  lemma AgreeingSelections(a: Artifacts, start: Date, n: nat, factor: real, f: Selection, g: Selection)
    requires ValidDate(start)
    requires forall r :: r in a.high || r in a.low ==>
      (Admitted(f, r.model, r.fuelType, r.color) <==> Admitted(g, r.model, r.fuelType, r.color))
    ensures Forecast(a, start, n, factor, f) == Forecast(a, start, n, factor, g)
  {
    var all := Rows(Forecast(a, start, n, factor, NoSelection));
    var months := ForecastMonths(start, n);
    SelectionOnlyRemoves(a, start, n, factor, f);
    SelectionOnlyRemoves(a, start, n, factor, g);
    forall o | o in all
      ensures OutputAdmitted(f)(o) == OutputAdmitted(g)(o)
    {
      ForecastRowsExactly(a, start, n, factor, NoSelection, o);
      var i :| 0 <= i < n && Produces(a, factor, NoSelection, months[i], o);
      var r :|
        (r in a.high && Explains(a.regHigh, a.discontinued, factor, NoSelection, months[i], r, o)) ||
        (r in a.low && Explains(a.regLow, a.discontinued, factor, NoSelection, months[i], r, o));
    }
    FilterAgree(all, OutputAdmitted(f), OutputAdmitted(g));
  }

  /** A Model selection listing every model present places no restriction. */
  lemma CompleteModelSelection(a: Artifacts, start: Date, n: nat, factor: real, f: Selection, values: seq<string>)
    requires ValidDate(start)
    requires forall r :: r in a.high || r in a.low ==> r.model in values
    ensures Forecast(a, start, n, factor, f.(models := Some(values))) ==
            Forecast(a, start, n, factor, f.(models := None))
  {
    AgreeingSelections(a, start, n, factor, f.(models := Some(values)), f.(models := None));
  }

  /** A FuelType selection listing every fuel type present places no restriction. */
  lemma CompleteFuelSelection(a: Artifacts, start: Date, n: nat, factor: real, f: Selection, values: seq<string>)
    requires ValidDate(start)
    requires forall r :: r in a.high || r in a.low ==> r.fuelType in values
    ensures Forecast(a, start, n, factor, f.(fuels := Some(values))) ==
            Forecast(a, start, n, factor, f.(fuels := None))
  {
    AgreeingSelections(a, start, n, factor, f.(fuels := Some(values)), f.(fuels := None));
  }

  /** A Color selection listing every color present places no restriction. */
  lemma CompleteColorSelection(a: Artifacts, start: Date, n: nat, factor: real, f: Selection, values: seq<string>)
    requires ValidDate(start)
    requires forall r :: r in a.high || r in a.low ==> r.color in values
    ensures Forecast(a, start, n, factor, f.(colors := Some(values))) ==
            Forecast(a, start, n, factor, f.(colors := None))
  {
    AgreeingSelections(a, start, n, factor, f.(colors := Some(values)), f.(colors := None));
  }

  // ----- The prediction transform -----

  lemma TransformNonNegative(raw: real, factor: real)
    requires factor >= 0.0
    ensures Transform(raw, factor) >= 0
  {
    assert Clamp(raw) * factor >= 0.0;
  }

  /** Clamping comes first: a non-positive raw output predicts 0 whatever the factor, even a negative one. */
  lemma ClampBeforeScale(raw: real, factor: real)
    requires raw <= 0.0
    ensures Transform(raw, factor) == 0
  {
  }

  /** A larger correction factor never lowers a prediction. */
  lemma TransformMonotoneInFactor(raw: real, f1: real, f2: real)
    requires f1 <= f2
    ensures Transform(raw, f1) <= Transform(raw, f2)
  {
    var c := Clamp(raw);
    assert c * f1 <= c * f2 by {
      assert c * f2 - c * f1 == c * (f2 - f1);
    }
  }

  /** With a non-negative factor a larger raw output never lowers a prediction. */
  lemma TransformMonotoneInRaw(r1: real, r2: real, factor: real)
    requires r1 <= r2 && factor >= 0.0
    ensures Transform(r1, factor) <= Transform(r2, factor)
  {
    var c1, c2 := Clamp(r1), Clamp(r2);
    assert c1 * factor <= c2 * factor by {
      assert c2 * factor - c1 * factor == (c2 - c1) * factor;
    }
  }

  /** Flooring comes last: 5.0 scaled by 0.96 is 4.8, which predicts 4. */
  lemma FloorAfterScale()
    ensures Transform(5.0, 0.96) == 4
    ensures Transform(10.7, 1.0) == 10
  {
    assert Clamp(5.0) * 0.96 == 4.8;
    assert Clamp(10.7) * 1.0 == 10.7;
  }

  // ----- A worked example -----

  const ExampleRow: RefRow := RefRow("X", "Petrol", "White", Date(2026, 1, 1), [])

  function ExampleArtifacts(discontinued: set<string>): Artifacts {
    Artifacts((r: RefRow) => 10.7, (r: RefRow) => 0.0, discontinued, [ExampleRow], [])
  }

  lemma ExampleMonths()
    ensures ForecastMonths(Date(2026, 1, 1), 2) == [YearMonth(2026, 1), YearMonth(2026, 2)]
  {
    var months := ForecastMonths(Date(2026, 1, 1), 2);
    FirstForecastMonth(Date(2026, 1, 1), 2);
    OrdinalInjective(months[1], YearMonth(2026, 2));
  }

  lemma ExampleLabel()
    ensures Label(YearMonth(2026, 1)) == "Jan 2026"
  {
    assert Digits(2026) == "2026" by {
      assert Digits(2) == "2";
      assert Digits(20) == "20";
      assert Digits(202) == "202";
    }
  }

  lemma ExampleJanuary(discontinued: set<string>)
    ensures MonthRows(ExampleArtifacts(discontinued), 1.0, NoSelection, YearMonth(2026, 1)) ==
      [ForecastRow("Jan 2026", "X", "Petrol", "White", if "X" in discontinued then 0 else 10)]
  {
    var a := ExampleArtifacts(discontinued);
    var jan := YearMonth(2026, 1);
    MonthRowsDirect(a, 1.0, NoSelection, jan);
    assert Filter(a.high, Selected(NoSelection, jan)) == [ExampleRow];
    assert Filter(a.low, Selected(NoSelection, jan)) == [];
    ExampleLabel();
    FloorAfterScale();
  }

  /** Start 2026-01-01, two months, factor 1.0, no selections, one high-segment
      row for January with raw output 10.7 and none for February: one row,
      "Jan 2026" with 10 units, or 0 units once its model is discontinued. */
  lemma ExampleForecast(discontinued: set<string>)
    ensures Forecast(ExampleArtifacts(discontinued), Date(2026, 1, 1), 2, 1.0, NoSelection) ==
      Table([ForecastRow("Jan 2026", "X", "Petrol", "White", if "X" in discontinued then 0 else 10)])
  {
    var a := ExampleArtifacts(discontinued);
    var jan, feb := YearMonth(2026, 1), YearMonth(2026, 2);
    ExampleMonths();
    assert SliceMonth(a.high, feb) == [];
    assert SkipMonth(a)(feb);
    assert SliceMonth(a.high, jan) == [ExampleRow];
    assert !SkipMonth(a)(jan);
    GatherStep([jan, feb], 0, SkipMonth(a), RowsOfMonth(a, 1.0, NoSelection));
    GatherStep([jan, feb], 1, SkipMonth(a), RowsOfMonth(a, 1.0, NoSelection));
    assert [jan, feb][..2] == [jan, feb];
    var c := Gather([jan, feb], SkipMonth(a), RowsOfMonth(a, 1.0, NoSelection));
    assert c == [MonthRows(a, 1.0, NoSelection, jan)];
    ExampleJanuary(discontinued);
    assert Concat(c) == c[0];
  }
}
