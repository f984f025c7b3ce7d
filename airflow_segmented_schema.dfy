/**
 * The customer-segmentation output schema of the Airflow exercise pipeline.
 */
module AirflowSegmentedSchema {
  import opened Results
  import opened Frames
  import opened Schemas

  /** customer_id positive and unique, total_spent non-negative, a segment label from the four, a date. */
  function Segmented(): Schema {
    Schema([
      ColumnSpec("customer_id", IntType, false, true, false, [Gt(0.0)]),
      Required("total_spent", FloatType, [Ge(0.0)]),
      Required("customer_segment", StrType, [IsIn(["Low", "Medium", "High", "VIP"])]),
      Required("segmentation_date", DateType, [])], false)
  }

  /** validate_post_segmented_schema: the table back when it conforms, SchemaError otherwise. */
  function ValidateSegmented(t: Frame): (r: Result<Frame>)
    ensures r.Ok? <==> Conforms(Segmented(), t)
    ensures r.Ok? ==> r.value == t
    ensures r.Err? ==> r.error == SchemaError
  {
    Validate(Segmented(), t, false)
  }

  /** The four segmentation columns are present. */
  predicate HasSegmentedColumns(t: Frame) {
    && "customer_id" in t.columns && "total_spent" in t.columns && "customer_segment" in t.columns
    && "segmentation_date" in t.columns
  }

  /** One segmented customer: positive id, non-negative spend, one of the four labels, a date. */
  predicate GoodSegmentRow(t: Frame, i: int)
    requires 0 <= i < |t.rows| && HasSegmentedColumns(t)
  {
    && Cell(t, i, "customer_id").Int? && Cell(t, i, "customer_id").i > 0
    && Cell(t, i, "total_spent").Real? && Cell(t, i, "total_spent").r >= 0.0
    && Cell(t, i, "customer_segment").Str? && Cell(t, i, "customer_segment").s in ["Low", "Medium", "High", "VIP"]
    && Cell(t, i, "segmentation_date").Date?
  }

  lemma SegmentedPresent(t: Frame)
    ensures Present(Segmented(), t) <==> HasSegmentedColumns(t)
  {
    var s := Segmented().columns;
    if Present(Segmented(), t) {
      assert s[0] in s && s[1] in s && s[2] in s && s[3] in s;
    }
    if HasSegmentedColumns(t) {
      forall spec | spec in s ensures spec.name in t.columns {
      }
    }
  }

  lemma SegmentedCells0(t: Frame, i: int)
    requires 0 <= i < |t.rows| && HasSegmentedColumns(t)
    ensures CellConforms(Segmented().columns[0], Cell(t, i, "customer_id")) <==> Cell(t, i, "customer_id").Int? && Cell(t, i, "customer_id").i > 0
    ensures CellConforms(Segmented().columns[1], Cell(t, i, "total_spent")) <==> Cell(t, i, "total_spent").Real? && Cell(t, i, "total_spent").r >= 0.0
    ensures CellConforms(Segmented().columns[2], Cell(t, i, "customer_segment")) <==> Cell(t, i, "customer_segment").Str? && Cell(t, i, "customer_segment").s in ["Low", "Medium", "High", "VIP"]
  {
    var s := Segmented().columns;
    CellConformsOne(s[0], Cell(t, i, "customer_id"), Gt(0.0));
    CellConformsOne(s[1], Cell(t, i, "total_spent"), Ge(0.0));
    CellConformsOne(s[2], Cell(t, i, "customer_segment"), IsIn(["Low", "Medium", "High", "VIP"]));
  }

  lemma SegmentedCells1(t: Frame, i: int)
    requires 0 <= i < |t.rows| && HasSegmentedColumns(t)
    ensures CellConforms(Segmented().columns[3], Cell(t, i, "segmentation_date")) <==> Cell(t, i, "segmentation_date").Date?
  {
    var s := Segmented().columns;
    CellConformsPlain(s[3], Cell(t, i, "segmentation_date"));
  }

  lemma SegmentedGoodCells(t: Frame, i: int)
    requires 0 <= i < |t.rows| && HasSegmentedColumns(t)
    ensures var s := Segmented().columns;
      GoodSegmentRow(t, i) <==>
      && CellConforms(s[0], Cell(t, i, "customer_id"))
      && CellConforms(s[1], Cell(t, i, "total_spent"))
      && CellConforms(s[2], Cell(t, i, "customer_segment"))
      && CellConforms(s[3], Cell(t, i, "segmentation_date"))
  {
    SegmentedCells0(t, i);
    SegmentedCells1(t, i);
  }

  lemma SegmentedCellsOfRow(t: Frame, i: int)
    requires 0 <= i < |t.rows| && HasSegmentedColumns(t) && Present(Segmented(), t)
    requires RowConforms(Segmented(), t, i)
    ensures var s := Segmented().columns;
      && CellConforms(s[0], Cell(t, i, "customer_id"))
      && CellConforms(s[1], Cell(t, i, "total_spent"))
      && CellConforms(s[2], Cell(t, i, "customer_segment"))
      && CellConforms(s[3], Cell(t, i, "segmentation_date"))
  {
    var s := Segmented().columns;
    RowConformsAt(Segmented(), t, i);
    CellOfRow(Segmented(), t, i, 0);
    CellOfRow(Segmented(), t, i, 1);
    CellOfRow(Segmented(), t, i, 2);
    CellOfRow(Segmented(), t, i, 3);
  }

  lemma SegmentedRowOfCells(t: Frame, i: int)
    requires 0 <= i < |t.rows| && HasSegmentedColumns(t) && Present(Segmented(), t)
    requires var s := Segmented().columns;
      && CellConforms(s[0], Cell(t, i, "customer_id"))
      && CellConforms(s[1], Cell(t, i, "total_spent"))
      && CellConforms(s[2], Cell(t, i, "customer_segment"))
      && CellConforms(s[3], Cell(t, i, "segmentation_date"))
    ensures RowConforms(Segmented(), t, i)
  {
    var s := Segmented().columns;
    forall k | 0 <= k < |s| ensures CellConforms(s[k], Cell(t, i, s[k].name)) {
      if k == 0 {} else if k == 1 {} else if k == 2 {} else {}
    }
    RowConformsAt(Segmented(), t, i);
  }

  /** Row i passes the schema exactly when GoodSegmentRow holds of it. */
  lemma SegmentedRowSpec(t: Frame, i: int)
    requires 0 <= i < |t.rows| && HasSegmentedColumns(t)
    ensures Present(Segmented(), t)
    ensures RowConforms(Segmented(), t, i) <==> GoodSegmentRow(t, i)
  {
    SegmentedPresent(t);
    SegmentedGoodCells(t, i);
    if RowConforms(Segmented(), t, i) {
      SegmentedCellsOfRow(t, i);
    }
    if GoodSegmentRow(t, i) {
      SegmentedRowOfCells(t, i);
    }
  }

  lemma SegmentedWholeColumns(t: Frame)
    requires HasSegmentedColumns(t)
    ensures Present(Segmented(), t)
    ensures (forall spec :: spec in Segmented().columns ==> WholeColumnConforms(spec, Col(t, spec.name)))
      <==> Distinct(Col(t, "customer_id"))
  {
    SegmentedPresent(t);
    var s := Segmented().columns;
    assert s[0] in s;
  }

  /** The segmentation schema accepts a table exactly when the four columns are present, every row is
      a good segment row and customer_id is unique. */
  lemma SegmentedSpec(t: Frame)
    ensures Conforms(Segmented(), t) <==>
      && HasSegmentedColumns(t)
      && (forall i :: 0 <= i < |t.rows| ==> GoodSegmentRow(t, i))
      && Distinct(Col(t, "customer_id"))
  {
    ConformsByRows(Segmented(), t);
    SegmentedPresent(t);
    if HasSegmentedColumns(t) {
      SegmentedWholeColumns(t);
      forall i | 0 <= i < |t.rows| ensures RowConforms(Segmented(), t, i) <==> GoodSegmentRow(t, i) {
        SegmentedRowSpec(t, i);
      }
    }
  }

  /** A customer without a segment label (a missing cell) or without a segmentation date fails. */
  lemma MissingSegmentRejected(t: Frame, i: int)
    requires HasSegmentedColumns(t) && 0 <= i < |t.rows|
    requires Cell(t, i, "customer_segment") == Null || Cell(t, i, "segmentation_date") == Null
    ensures ValidateSegmented(t) == Err(SchemaError)
  {
    SegmentedSpec(t);
    assert !GoodSegmentRow(t, i);
  }
}
