/**
 * The monthly-aggregate schema of the Airflow exercise pipeline. The "pre" and "post" schemas are
 * written out twice with the same three columns and checks, so they are one schema here.
 */
module AirflowAggregatesSchema {
  import opened Results
  import opened Frames
  import opened Schemas

  /** order_date a date, unique_customers a float greater than 0, total_sales a float of at least 0. */
  function Aggregates(): Schema {
    Schema([
      Required("order_date", DateType, []),
      Required("unique_customers", FloatType, [Gt(0.0)]),
      Required("total_sales", FloatType, [Ge(0.0)])], false)
  }

  /** validate_pre_aggregates_schema: the table back when it conforms; the SchemaError escapes the handler otherwise. */
  function ValidatePreAggregates(t: Frame): (r: Result<Frame>)
    ensures r.Ok? <==> Conforms(Aggregates(), t)
    ensures r.Ok? ==> r.value == t
    ensures r.Err? ==> r.error == SchemaError
  {
    PreValidate(Aggregates(), t)
  }

  /** validate_post_aggregates_schema: the table back when it conforms, SchemaError otherwise. */
  function ValidatePostAggregates(t: Frame): (r: Result<Frame>)
    ensures r.Ok? <==> Conforms(Aggregates(), t)
    ensures r.Ok? ==> r.value == t
    ensures r.Err? ==> r.error == SchemaError
  {
    Validate(Aggregates(), t, false)
  }

  /** The three aggregate columns are present. */
  predicate HasAggregateColumns(t: Frame) {
    && "order_date" in t.columns && "unique_customers" in t.columns && "total_sales" in t.columns
  }

  /** One month: a date, a positive (float) count of customers and non-negative sales. */
  predicate GoodAggregateRow(t: Frame, i: int)
    requires 0 <= i < |t.rows| && HasAggregateColumns(t)
  {
    && Cell(t, i, "order_date").Date?
    && Cell(t, i, "unique_customers").Real? && Cell(t, i, "unique_customers").r > 0.0
    && Cell(t, i, "total_sales").Real? && Cell(t, i, "total_sales").r >= 0.0
  }

  lemma AggregatesPresent(t: Frame)
    ensures Present(Aggregates(), t) <==> HasAggregateColumns(t)
  {
    var s := Aggregates().columns;
    if Present(Aggregates(), t) {
      assert s[0] in s && s[1] in s && s[2] in s;
    }
    if HasAggregateColumns(t) {
      forall spec | spec in s ensures spec.name in t.columns {
      }
    }
  }

  lemma AggregatesCells0(t: Frame, i: int)
    requires 0 <= i < |t.rows| && HasAggregateColumns(t)
    ensures CellConforms(Aggregates().columns[0], Cell(t, i, "order_date")) <==> Cell(t, i, "order_date").Date?
    ensures CellConforms(Aggregates().columns[1], Cell(t, i, "unique_customers")) <==> Cell(t, i, "unique_customers").Real? && Cell(t, i, "unique_customers").r > 0.0
    ensures CellConforms(Aggregates().columns[2], Cell(t, i, "total_sales")) <==> Cell(t, i, "total_sales").Real? && Cell(t, i, "total_sales").r >= 0.0
  {
    var s := Aggregates().columns;
    CellConformsPlain(s[0], Cell(t, i, "order_date"));
    CellConformsOne(s[1], Cell(t, i, "unique_customers"), Gt(0.0));
    CellConformsOne(s[2], Cell(t, i, "total_sales"), Ge(0.0));
  }

  lemma AggregatesGoodCells(t: Frame, i: int)
    requires 0 <= i < |t.rows| && HasAggregateColumns(t)
    ensures var s := Aggregates().columns;
      GoodAggregateRow(t, i) <==>
      && CellConforms(s[0], Cell(t, i, "order_date"))
      && CellConforms(s[1], Cell(t, i, "unique_customers"))
      && CellConforms(s[2], Cell(t, i, "total_sales"))
  {
    AggregatesCells0(t, i);
  }

  lemma AggregatesCellsOfRow(t: Frame, i: int)
    requires 0 <= i < |t.rows| && HasAggregateColumns(t) && Present(Aggregates(), t)
    requires RowConforms(Aggregates(), t, i)
    ensures var s := Aggregates().columns;
      && CellConforms(s[0], Cell(t, i, "order_date"))
      && CellConforms(s[1], Cell(t, i, "unique_customers"))
      && CellConforms(s[2], Cell(t, i, "total_sales"))
  {
    var s := Aggregates().columns;
    RowConformsAt(Aggregates(), t, i);
    CellOfRow(Aggregates(), t, i, 0);
    CellOfRow(Aggregates(), t, i, 1);
    CellOfRow(Aggregates(), t, i, 2);
  }

  lemma AggregatesRowOfCells(t: Frame, i: int)
    requires 0 <= i < |t.rows| && HasAggregateColumns(t) && Present(Aggregates(), t)
    requires var s := Aggregates().columns;
      && CellConforms(s[0], Cell(t, i, "order_date"))
      && CellConforms(s[1], Cell(t, i, "unique_customers"))
      && CellConforms(s[2], Cell(t, i, "total_sales"))
    ensures RowConforms(Aggregates(), t, i)
  {
    var s := Aggregates().columns;
    forall k | 0 <= k < |s| ensures CellConforms(s[k], Cell(t, i, s[k].name)) {
      if k == 0 {} else if k == 1 {} else {}
    }
    RowConformsAt(Aggregates(), t, i);
  }

  /** Row i passes the schema exactly when GoodAggregateRow holds of it. */
  lemma AggregatesRowSpec(t: Frame, i: int)
    requires 0 <= i < |t.rows| && HasAggregateColumns(t)
    ensures Present(Aggregates(), t)
    ensures RowConforms(Aggregates(), t, i) <==> GoodAggregateRow(t, i)
  {
    AggregatesPresent(t);
    AggregatesGoodCells(t, i);
    if RowConforms(Aggregates(), t, i) {
      AggregatesCellsOfRow(t, i);
    }
    if GoodAggregateRow(t, i) {
      AggregatesRowOfCells(t, i);
    }
  }

  lemma AggregatesWholeColumns(t: Frame)
    requires HasAggregateColumns(t)
    ensures Present(Aggregates(), t)
    ensures forall spec :: spec in Aggregates().columns ==> WholeColumnConforms(spec, Col(t, spec.name))
  {
    AggregatesPresent(t);
  }

  /** The aggregate schema accepts a table exactly when the three columns are present and every row
      is a good aggregate row. */
  lemma AggregatesSpec(t: Frame)
    ensures Conforms(Aggregates(), t) <==>
      && HasAggregateColumns(t)
      && (forall i :: 0 <= i < |t.rows| ==> GoodAggregateRow(t, i))
  {
    ConformsByRows(Aggregates(), t);
    AggregatesPresent(t);
    if HasAggregateColumns(t) {
      AggregatesWholeColumns(t);
      forall i | 0 <= i < |t.rows| ensures RowConforms(Aggregates(), t, i) <==> GoodAggregateRow(t, i) {
        AggregatesRowSpec(t, i);
      }
    }
  }

  /** A month counted with no customers fails, and so does a whole-number count: the column is declared float. */
  lemma CustomerCountRejected(t: Frame, i: int)
    requires HasAggregateColumns(t) && 0 <= i < |t.rows|
    requires Cell(t, i, "unique_customers") == Real(0.0) || Cell(t, i, "unique_customers").Int?
    ensures ValidatePostAggregates(t) == Err(SchemaError)
  {
    AggregatesSpec(t);
    assert !GoodAggregateRow(t, i);
  }
}
