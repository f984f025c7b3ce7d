/**
 * The sales-forecast output schema of the Airflow exercise pipeline.
 */
module AirflowForecastSchema {
  import opened Results
  import opened Frames
  import opened Schemas

  /** order_date a date; total_revenue and sales_forecast non-negative floats. */
  function Forecast(): Schema {
    Schema([
      Required("order_date", DateType, []),
      Required("total_revenue", FloatType, [Ge(0.0)]),
      Required("sales_forecast", FloatType, [Ge(0.0)])], false)
  }

  /** validate_post_forecast_schema: the table back when it conforms, SchemaError otherwise. */
  function ValidateForecast(t: Frame): (r: Result<Frame>)
    ensures r.Ok? <==> Conforms(Forecast(), t)
    ensures r.Ok? ==> r.value == t
    ensures r.Err? ==> r.error == SchemaError
  {
    Validate(Forecast(), t, false)
  }

  /** The three forecast columns are present. */
  predicate HasForecastColumns(t: Frame) {
    && "order_date" in t.columns && "total_revenue" in t.columns && "sales_forecast" in t.columns
  }

  /** One forecast row: a date and two non-negative floats. */
  predicate GoodForecastRow(t: Frame, i: int)
    requires 0 <= i < |t.rows| && HasForecastColumns(t)
  {
    && Cell(t, i, "order_date").Date?
    && Cell(t, i, "total_revenue").Real? && Cell(t, i, "total_revenue").r >= 0.0
    && Cell(t, i, "sales_forecast").Real? && Cell(t, i, "sales_forecast").r >= 0.0
  }

  lemma ForecastPresent(t: Frame)
    ensures Present(Forecast(), t) <==> HasForecastColumns(t)
  {
    var s := Forecast().columns;
    if Present(Forecast(), t) {
      assert s[0] in s && s[1] in s && s[2] in s;
    }
    if HasForecastColumns(t) {
      forall spec | spec in s ensures spec.name in t.columns {
      }
    }
  }

  lemma ForecastCells0(t: Frame, i: int)
    requires 0 <= i < |t.rows| && HasForecastColumns(t)
    ensures CellConforms(Forecast().columns[0], Cell(t, i, "order_date")) <==> Cell(t, i, "order_date").Date?
    ensures CellConforms(Forecast().columns[1], Cell(t, i, "total_revenue")) <==> Cell(t, i, "total_revenue").Real? && Cell(t, i, "total_revenue").r >= 0.0
    ensures CellConforms(Forecast().columns[2], Cell(t, i, "sales_forecast")) <==> Cell(t, i, "sales_forecast").Real? && Cell(t, i, "sales_forecast").r >= 0.0
  {
    var s := Forecast().columns;
    CellConformsPlain(s[0], Cell(t, i, "order_date"));
    CellConformsOne(s[1], Cell(t, i, "total_revenue"), Ge(0.0));
    CellConformsOne(s[2], Cell(t, i, "sales_forecast"), Ge(0.0));
  }

  lemma ForecastGoodCells(t: Frame, i: int)
    requires 0 <= i < |t.rows| && HasForecastColumns(t)
    ensures var s := Forecast().columns;
      GoodForecastRow(t, i) <==>
      && CellConforms(s[0], Cell(t, i, "order_date"))
      && CellConforms(s[1], Cell(t, i, "total_revenue"))
      && CellConforms(s[2], Cell(t, i, "sales_forecast"))
  {
    ForecastCells0(t, i);
  }

  lemma ForecastCellsOfRow(t: Frame, i: int)
    requires 0 <= i < |t.rows| && HasForecastColumns(t) && Present(Forecast(), t)
    requires RowConforms(Forecast(), t, i)
    ensures var s := Forecast().columns;
      && CellConforms(s[0], Cell(t, i, "order_date"))
      && CellConforms(s[1], Cell(t, i, "total_revenue"))
      && CellConforms(s[2], Cell(t, i, "sales_forecast"))
  {
    var s := Forecast().columns;
    RowConformsAt(Forecast(), t, i);
    CellOfRow(Forecast(), t, i, 0);
    CellOfRow(Forecast(), t, i, 1);
    CellOfRow(Forecast(), t, i, 2);
  }

  lemma ForecastRowOfCells(t: Frame, i: int)
    requires 0 <= i < |t.rows| && HasForecastColumns(t) && Present(Forecast(), t)
    requires var s := Forecast().columns;
      && CellConforms(s[0], Cell(t, i, "order_date"))
      && CellConforms(s[1], Cell(t, i, "total_revenue"))
      && CellConforms(s[2], Cell(t, i, "sales_forecast"))
    ensures RowConforms(Forecast(), t, i)
  {
    var s := Forecast().columns;
    forall k | 0 <= k < |s| ensures CellConforms(s[k], Cell(t, i, s[k].name)) {
      if k == 0 {} else if k == 1 {} else {}
    }
    RowConformsAt(Forecast(), t, i);
  }

  /** Row i passes the schema exactly when GoodForecastRow holds of it. */
  lemma ForecastRowSpec(t: Frame, i: int)
    requires 0 <= i < |t.rows| && HasForecastColumns(t)
    ensures Present(Forecast(), t)
    ensures RowConforms(Forecast(), t, i) <==> GoodForecastRow(t, i)
  {
    ForecastPresent(t);
    ForecastGoodCells(t, i);
    if RowConforms(Forecast(), t, i) {
      ForecastCellsOfRow(t, i);
    }
    if GoodForecastRow(t, i) {
      ForecastRowOfCells(t, i);
    }
  }

  lemma ForecastWholeColumns(t: Frame)
    requires HasForecastColumns(t)
    ensures Present(Forecast(), t)
    ensures forall spec :: spec in Forecast().columns ==> WholeColumnConforms(spec, Col(t, spec.name))
  {
    ForecastPresent(t);
  }

  /** The forecast schema accepts a table exactly when the three columns are present and every row is a
      good forecast row. */
  lemma ForecastSpec(t: Frame)
    ensures Conforms(Forecast(), t) <==>
      && HasForecastColumns(t)
      && (forall i :: 0 <= i < |t.rows| ==> GoodForecastRow(t, i))
  {
    ConformsByRows(Forecast(), t);
    ForecastPresent(t);
    if HasForecastColumns(t) {
      ForecastWholeColumns(t);
      forall i | 0 <= i < |t.rows| ensures RowConforms(Forecast(), t, i) <==> GoodForecastRow(t, i) {
        ForecastRowSpec(t, i);
      }
    }
  }
}
