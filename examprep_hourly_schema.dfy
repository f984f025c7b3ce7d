/**
 * The hourly-trend schema of the exam-preparation pipeline. As in the revenue schema, the region
 * check `len(s) > 0` is on the whole column: it fails an empty table and nothing else.
 */
module ExamPrepHourlySchema {
  import opened Results
  import opened Frames
  import opened Schemas

  /** region a string (and at least one row), hour in 0..23, hourly_total_sales non-negative. */
  function HourlyTrend(): Schema {
    Schema([
      Required("region", StrType, [NonEmpty]),
      Required("hour", IntType, [InRange(0.0, 23.0)]),
      Required("hourly_total_sales", FloatType, [Ge(0.0)])], false)
  }

  /** validate_output_hourly_sales_trend_schema: the table back when it conforms, SchemaError otherwise. */
  function ValidateHourlyTrend(t: Frame): (r: Result<Frame>)
    ensures r.Ok? <==> Conforms(HourlyTrend(), t)
    ensures r.Ok? ==> r.value == t
    ensures r.Err? ==> r.error == SchemaError
  {
    Validate(HourlyTrend(), t, false)
  }

  /** The three hourly-trend columns are present. */
  predicate HasHourlyColumns(t: Frame) {
    && "region" in t.columns && "hour" in t.columns && "hourly_total_sales" in t.columns
  }

  /** One peak hour: a region, an hour of the day and non-negative sales. */
  predicate GoodHourlyRow(t: Frame, i: int)
    requires 0 <= i < |t.rows| && HasHourlyColumns(t)
  {
    && Cell(t, i, "region").Str?
    && Cell(t, i, "hour").Int? && 0 <= Cell(t, i, "hour").i <= 23
    && Cell(t, i, "hourly_total_sales").Real? && Cell(t, i, "hourly_total_sales").r >= 0.0
  }

  lemma HourlyPresent(t: Frame)
    ensures Present(HourlyTrend(), t) <==> HasHourlyColumns(t)
  {
    var s := HourlyTrend().columns;
    if Present(HourlyTrend(), t) {
      assert s[0] in s && s[1] in s && s[2] in s;
    }
    if HasHourlyColumns(t) {
      forall spec | spec in s ensures spec.name in t.columns {
      }
    }
  }

  lemma HourlyCells0(t: Frame, i: int)
    requires 0 <= i < |t.rows| && HasHourlyColumns(t)
    ensures CellConforms(HourlyTrend().columns[0], Cell(t, i, "region")) <==> Cell(t, i, "region").Str?
    ensures CellConforms(HourlyTrend().columns[1], Cell(t, i, "hour")) <==> Cell(t, i, "hour").Int? && 0 <= Cell(t, i, "hour").i <= 23
    ensures CellConforms(HourlyTrend().columns[2], Cell(t, i, "hourly_total_sales")) <==> Cell(t, i, "hourly_total_sales").Real? && Cell(t, i, "hourly_total_sales").r >= 0.0
  {
    var s := HourlyTrend().columns;
    CellConformsPlain(s[0], Cell(t, i, "region"));
    CellConformsOne(s[1], Cell(t, i, "hour"), InRange(0.0, 23.0));
    CellConformsOne(s[2], Cell(t, i, "hourly_total_sales"), Ge(0.0));
  }

  lemma HourlyGoodCells(t: Frame, i: int)
    requires 0 <= i < |t.rows| && HasHourlyColumns(t)
    ensures var s := HourlyTrend().columns;
      GoodHourlyRow(t, i) <==>
      && CellConforms(s[0], Cell(t, i, "region"))
      && CellConforms(s[1], Cell(t, i, "hour"))
      && CellConforms(s[2], Cell(t, i, "hourly_total_sales"))
  {
    HourlyCells0(t, i);
  }

  lemma HourlyCellsOfRow(t: Frame, i: int)
    requires 0 <= i < |t.rows| && HasHourlyColumns(t) && Present(HourlyTrend(), t)
    requires RowConforms(HourlyTrend(), t, i)
    ensures var s := HourlyTrend().columns;
      && CellConforms(s[0], Cell(t, i, "region"))
      && CellConforms(s[1], Cell(t, i, "hour"))
      && CellConforms(s[2], Cell(t, i, "hourly_total_sales"))
  {
    var s := HourlyTrend().columns;
    RowConformsAt(HourlyTrend(), t, i);
    CellOfRow(HourlyTrend(), t, i, 0);
    CellOfRow(HourlyTrend(), t, i, 1);
    CellOfRow(HourlyTrend(), t, i, 2);
  }

  lemma HourlyRowOfCells(t: Frame, i: int)
    requires 0 <= i < |t.rows| && HasHourlyColumns(t) && Present(HourlyTrend(), t)
    requires var s := HourlyTrend().columns;
      && CellConforms(s[0], Cell(t, i, "region"))
      && CellConforms(s[1], Cell(t, i, "hour"))
      && CellConforms(s[2], Cell(t, i, "hourly_total_sales"))
    ensures RowConforms(HourlyTrend(), t, i)
  {
    var s := HourlyTrend().columns;
    forall k | 0 <= k < |s| ensures CellConforms(s[k], Cell(t, i, s[k].name)) {
      if k == 0 {} else if k == 1 {} else {}
    }
    RowConformsAt(HourlyTrend(), t, i);
  }

  /** Row i passes the schema exactly when GoodHourlyRow holds of it. */
  lemma HourlyRowSpec(t: Frame, i: int)
    requires 0 <= i < |t.rows| && HasHourlyColumns(t)
    ensures Present(HourlyTrend(), t)
    ensures RowConforms(HourlyTrend(), t, i) <==> GoodHourlyRow(t, i)
  {
    HourlyPresent(t);
    HourlyGoodCells(t, i);
    if RowConforms(HourlyTrend(), t, i) {
      HourlyCellsOfRow(t, i);
    }
    if GoodHourlyRow(t, i) {
      HourlyRowOfCells(t, i);
    }
  }

  lemma HourlyWholeColumns(t: Frame)
    requires HasHourlyColumns(t)
    ensures Present(HourlyTrend(), t)
    ensures (forall spec :: spec in HourlyTrend().columns ==> WholeColumnConforms(spec, Col(t, spec.name)))
      <==> |t.rows| > 0
  {
    HourlyPresent(t);
    var s := HourlyTrend().columns;
    assert s[0] in s;
  }

  /** The schema accepts a table exactly when the three columns are present, it has at least one row
      and every row is a good hourly row. */
  lemma HourlySpec(t: Frame)
    ensures Conforms(HourlyTrend(), t) <==>
      && HasHourlyColumns(t)
      && (forall i :: 0 <= i < |t.rows| ==> GoodHourlyRow(t, i))
      && |t.rows| > 0
  {
    ConformsByRows(HourlyTrend(), t);
    HourlyPresent(t);
    if HasHourlyColumns(t) {
      HourlyWholeColumns(t);
      forall i | 0 <= i < |t.rows| ensures RowConforms(HourlyTrend(), t, i) <==> GoodHourlyRow(t, i) {
        HourlyRowSpec(t, i);
      }
    }
  }

  /** The region check is a row count: an empty table with the right columns is rejected. */
  lemma EmptyHourlyRejected(t: Frame)
    requires HasHourlyColumns(t) && |t.rows| == 0
    ensures ValidateHourlyTrend(t) == Err(SchemaError)
  {
    HourlySpec(t);
  }
}
