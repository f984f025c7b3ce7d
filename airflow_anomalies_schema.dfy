/**
 * The sales-anomalies output schema of the Airflow exercise pipeline. order_id is declared a string
 * column, and total_revenue carries no check beyond its dtype.
 */
module AirflowAnomaliesSchema {
  import opened Results
  import opened Frames
  import opened Schemas

  /** order_id a string; customer_id and product_id positive; a date; total_revenue a float. */
  function Anomalies(): Schema {
    Schema([
      Required("order_id", StrType, []),
      Required("customer_id", IntType, [Gt(0.0)]),
      Required("product_id", IntType, [Gt(0.0)]),
      Required("order_date", DateType, []),
      Required("total_revenue", FloatType, [])], false)
  }

  /** validate_post_anomalies_schema: the table back when it conforms, SchemaError otherwise. */
  function ValidateAnomalies(t: Frame): (r: Result<Frame>)
    ensures r.Ok? <==> Conforms(Anomalies(), t)
    ensures r.Ok? ==> r.value == t
    ensures r.Err? ==> r.error == SchemaError
  {
    Validate(Anomalies(), t, false)
  }

  /** The five anomaly columns are present. */
  predicate HasAnomalyColumns(t: Frame) {
    && "order_id" in t.columns && "customer_id" in t.columns && "product_id" in t.columns
    && "order_date" in t.columns && "total_revenue" in t.columns
  }

  /** One anomaly row: a string order id, positive customer and product ids, a date and a float revenue. */
  predicate GoodAnomalyRow(t: Frame, i: int)
    requires 0 <= i < |t.rows| && HasAnomalyColumns(t)
  {
    && Cell(t, i, "order_id").Str?
    && Cell(t, i, "customer_id").Int? && Cell(t, i, "customer_id").i > 0
    && Cell(t, i, "product_id").Int? && Cell(t, i, "product_id").i > 0
    && Cell(t, i, "order_date").Date?
    && Cell(t, i, "total_revenue").Real?
  }

  lemma AnomaliesPresent(t: Frame)
    ensures Present(Anomalies(), t) <==> HasAnomalyColumns(t)
  {
    var s := Anomalies().columns;
    if Present(Anomalies(), t) {
      assert s[0] in s && s[1] in s && s[2] in s && s[3] in s && s[4] in s;
    }
    if HasAnomalyColumns(t) {
      forall spec | spec in s ensures spec.name in t.columns {
      }
    }
  }

  lemma AnomaliesCells0(t: Frame, i: int)
    requires 0 <= i < |t.rows| && HasAnomalyColumns(t)
    ensures CellConforms(Anomalies().columns[0], Cell(t, i, "order_id")) <==> Cell(t, i, "order_id").Str?
    ensures CellConforms(Anomalies().columns[1], Cell(t, i, "customer_id")) <==> Cell(t, i, "customer_id").Int? && Cell(t, i, "customer_id").i > 0
    ensures CellConforms(Anomalies().columns[2], Cell(t, i, "product_id")) <==> Cell(t, i, "product_id").Int? && Cell(t, i, "product_id").i > 0
  {
    var s := Anomalies().columns;
    CellConformsPlain(s[0], Cell(t, i, "order_id"));
    CellConformsOne(s[1], Cell(t, i, "customer_id"), Gt(0.0));
    CellConformsOne(s[2], Cell(t, i, "product_id"), Gt(0.0));
  }

  lemma AnomaliesCells1(t: Frame, i: int)
    requires 0 <= i < |t.rows| && HasAnomalyColumns(t)
    ensures CellConforms(Anomalies().columns[3], Cell(t, i, "order_date")) <==> Cell(t, i, "order_date").Date?
    ensures CellConforms(Anomalies().columns[4], Cell(t, i, "total_revenue")) <==> Cell(t, i, "total_revenue").Real?
  {
    var s := Anomalies().columns;
    CellConformsPlain(s[3], Cell(t, i, "order_date"));
    CellConformsPlain(s[4], Cell(t, i, "total_revenue"));
  }

  lemma AnomaliesGoodCells(t: Frame, i: int)
    requires 0 <= i < |t.rows| && HasAnomalyColumns(t)
    ensures var s := Anomalies().columns;
      GoodAnomalyRow(t, i) <==>
      && CellConforms(s[0], Cell(t, i, "order_id"))
      && CellConforms(s[1], Cell(t, i, "customer_id"))
      && CellConforms(s[2], Cell(t, i, "product_id"))
      && CellConforms(s[3], Cell(t, i, "order_date"))
      && CellConforms(s[4], Cell(t, i, "total_revenue"))
  {
    AnomaliesCells0(t, i);
    AnomaliesCells1(t, i);
  }

  lemma AnomaliesCellsOfRow(t: Frame, i: int)
    requires 0 <= i < |t.rows| && HasAnomalyColumns(t) && Present(Anomalies(), t)
    requires RowConforms(Anomalies(), t, i)
    ensures var s := Anomalies().columns;
      && CellConforms(s[0], Cell(t, i, "order_id"))
      && CellConforms(s[1], Cell(t, i, "customer_id"))
      && CellConforms(s[2], Cell(t, i, "product_id"))
      && CellConforms(s[3], Cell(t, i, "order_date"))
      && CellConforms(s[4], Cell(t, i, "total_revenue"))
  {
    var s := Anomalies().columns;
    RowConformsAt(Anomalies(), t, i);
    CellOfRow(Anomalies(), t, i, 0);
    CellOfRow(Anomalies(), t, i, 1);
    CellOfRow(Anomalies(), t, i, 2);
    CellOfRow(Anomalies(), t, i, 3);
    CellOfRow(Anomalies(), t, i, 4);
  }

  lemma AnomaliesRowOfCells(t: Frame, i: int)
    requires 0 <= i < |t.rows| && HasAnomalyColumns(t) && Present(Anomalies(), t)
    requires var s := Anomalies().columns;
      && CellConforms(s[0], Cell(t, i, "order_id"))
      && CellConforms(s[1], Cell(t, i, "customer_id"))
      && CellConforms(s[2], Cell(t, i, "product_id"))
      && CellConforms(s[3], Cell(t, i, "order_date"))
      && CellConforms(s[4], Cell(t, i, "total_revenue"))
    ensures RowConforms(Anomalies(), t, i)
  {
    var s := Anomalies().columns;
    forall k | 0 <= k < |s| ensures CellConforms(s[k], Cell(t, i, s[k].name)) {
      if k == 0 {} else if k == 1 {} else if k == 2 {} else if k == 3 {} else {}
    }
    RowConformsAt(Anomalies(), t, i);
  }

  /** Row i passes the schema exactly when GoodAnomalyRow holds of it. */
  lemma AnomaliesRowSpec(t: Frame, i: int)
    requires 0 <= i < |t.rows| && HasAnomalyColumns(t)
    ensures Present(Anomalies(), t)
    ensures RowConforms(Anomalies(), t, i) <==> GoodAnomalyRow(t, i)
  {
    AnomaliesPresent(t);
    AnomaliesGoodCells(t, i);
    if RowConforms(Anomalies(), t, i) {
      AnomaliesCellsOfRow(t, i);
    }
    if GoodAnomalyRow(t, i) {
      AnomaliesRowOfCells(t, i);
    }
  }

  lemma AnomaliesWholeColumns(t: Frame)
    requires HasAnomalyColumns(t)
    ensures Present(Anomalies(), t)
    ensures forall spec :: spec in Anomalies().columns ==> WholeColumnConforms(spec, Col(t, spec.name))
  {
    AnomaliesPresent(t);
  }

  /** The anomalies schema accepts a table exactly when the five columns are present and every row is a
      good anomaly row. */
  lemma AnomaliesSpec(t: Frame)
    ensures Conforms(Anomalies(), t) <==>
      && HasAnomalyColumns(t)
      && (forall i :: 0 <= i < |t.rows| ==> GoodAnomalyRow(t, i))
  {
    ConformsByRows(Anomalies(), t);
    AnomaliesPresent(t);
    if HasAnomalyColumns(t) {
      AnomaliesWholeColumns(t);
      forall i | 0 <= i < |t.rows| ensures RowConforms(Anomalies(), t, i) <==> GoodAnomalyRow(t, i) {
        AnomaliesRowSpec(t, i);
      }
    }
  }

  /** A whole-number order_id, as the sales data carries it, fails the string dtype. */
  lemma IntegerOrderIdRejected(t: Frame, i: int)
    requires HasAnomalyColumns(t) && 0 <= i < |t.rows| && Cell(t, i, "order_id").Int?
    ensures ValidateAnomalies(t) == Err(SchemaError)
  {
    AnomaliesSpec(t);
    assert !GoodAnomalyRow(t, i);
  }
}
