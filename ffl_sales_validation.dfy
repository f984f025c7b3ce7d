/**
 * The sales schema of the file-formats lab. Its bounds admit the lab transform's fill values: ids
 * of -1 and zero amounts and quantities. order_date may be missing; the schema is not strict.
 */
module FileFormatsLabSales {
  import opened Results
  import opened Frames
  import opened Schemas

  /** ids at least -1, amount, quantity and total_revenue at least 0, a nullable order_date. */
  function LabSales(): Schema {
    Schema([
      Required("order_id", IntType, [Ge(-1.0)]),
      Required("customer_id", IntType, [Ge(-1.0)]),
      Required("amount", FloatType, [Ge(0.0)]),
      Required("quantity", IntType, [Ge(0.0)]),
      ColumnSpec("order_date", DateType, true, false, false, []),
      Required("total_revenue", FloatType, [Ge(0.0)])], false)
  }

  /** validate_sales_data: the table back when it conforms, SchemaError otherwise. */
  function ValidateLabSales(t: Frame): (r: Result<Frame>)
    ensures r.Ok? <==> Conforms(LabSales(), t)
    ensures r.Ok? ==> r.value == t
    ensures r.Err? ==> r.error == SchemaError
  {
    Validate(LabSales(), t, false)
  }

  /** All six sales columns are present. */
  predicate HasLabSalesColumns(t: Frame) {
    && "order_id" in t.columns && "customer_id" in t.columns && "amount" in t.columns
    && "quantity" in t.columns && "order_date" in t.columns && "total_revenue" in t.columns
  }

  /** One sales row: ids at least -1, non-negative amount, quantity and revenue, a date or nothing. */
  predicate GoodLabSalesRow(t: Frame, i: int)
    requires 0 <= i < |t.rows| && HasLabSalesColumns(t)
  {
    && Cell(t, i, "order_id").Int? && Cell(t, i, "order_id").i >= -1
    && Cell(t, i, "customer_id").Int? && Cell(t, i, "customer_id").i >= -1
    && Cell(t, i, "amount").Real? && Cell(t, i, "amount").r >= 0.0
    && Cell(t, i, "quantity").Int? && Cell(t, i, "quantity").i >= 0
    && (Cell(t, i, "order_date").Null? || Cell(t, i, "order_date").Date?)
    && Cell(t, i, "total_revenue").Real? && Cell(t, i, "total_revenue").r >= 0.0
  }

  lemma LabSalesPresent(t: Frame)
    ensures Present(LabSales(), t) <==> HasLabSalesColumns(t)
  {
    var s := LabSales().columns;
    if Present(LabSales(), t) {
      assert s[0] in s && s[1] in s && s[2] in s && s[3] in s && s[4] in s && s[5] in s;
    }
    if HasLabSalesColumns(t) {
      forall spec | spec in s ensures spec.name in t.columns {
      }
    }
  }

  lemma LabSalesCells0(t: Frame, i: int)
    requires 0 <= i < |t.rows| && HasLabSalesColumns(t)
    ensures CellConforms(LabSales().columns[0], Cell(t, i, "order_id")) <==> Cell(t, i, "order_id").Int? && Cell(t, i, "order_id").i >= -1
    ensures CellConforms(LabSales().columns[1], Cell(t, i, "customer_id")) <==> Cell(t, i, "customer_id").Int? && Cell(t, i, "customer_id").i >= -1
    ensures CellConforms(LabSales().columns[2], Cell(t, i, "amount")) <==> Cell(t, i, "amount").Real? && Cell(t, i, "amount").r >= 0.0
  {
    var s := LabSales().columns;
    CellConformsOne(s[0], Cell(t, i, "order_id"), Ge(-1.0));
    CellConformsOne(s[1], Cell(t, i, "customer_id"), Ge(-1.0));
    CellConformsOne(s[2], Cell(t, i, "amount"), Ge(0.0));
  }

  lemma LabSalesCells1(t: Frame, i: int)
    requires 0 <= i < |t.rows| && HasLabSalesColumns(t)
    ensures CellConforms(LabSales().columns[3], Cell(t, i, "quantity")) <==> Cell(t, i, "quantity").Int? && Cell(t, i, "quantity").i >= 0
    ensures CellConforms(LabSales().columns[4], Cell(t, i, "order_date")) <==> (Cell(t, i, "order_date").Null? || Cell(t, i, "order_date").Date?)
    ensures CellConforms(LabSales().columns[5], Cell(t, i, "total_revenue")) <==> Cell(t, i, "total_revenue").Real? && Cell(t, i, "total_revenue").r >= 0.0
  {
    var s := LabSales().columns;
    CellConformsOne(s[3], Cell(t, i, "quantity"), Ge(0.0));
    CellConformsPlain(s[4], Cell(t, i, "order_date"));
    CellConformsOne(s[5], Cell(t, i, "total_revenue"), Ge(0.0));
  }

  lemma LabSalesGoodCells(t: Frame, i: int)
    requires 0 <= i < |t.rows| && HasLabSalesColumns(t)
    ensures var s := LabSales().columns;
      GoodLabSalesRow(t, i) <==>
      && CellConforms(s[0], Cell(t, i, "order_id"))
      && CellConforms(s[1], Cell(t, i, "customer_id"))
      && CellConforms(s[2], Cell(t, i, "amount"))
      && CellConforms(s[3], Cell(t, i, "quantity"))
      && CellConforms(s[4], Cell(t, i, "order_date"))
      && CellConforms(s[5], Cell(t, i, "total_revenue"))
  {
    LabSalesCells0(t, i);
    LabSalesCells1(t, i);
  }

  lemma LabSalesCellsOfRow(t: Frame, i: int)
    requires 0 <= i < |t.rows| && HasLabSalesColumns(t) && Present(LabSales(), t)
    requires RowConforms(LabSales(), t, i)
    ensures var s := LabSales().columns;
      && CellConforms(s[0], Cell(t, i, "order_id"))
      && CellConforms(s[1], Cell(t, i, "customer_id"))
      && CellConforms(s[2], Cell(t, i, "amount"))
      && CellConforms(s[3], Cell(t, i, "quantity"))
      && CellConforms(s[4], Cell(t, i, "order_date"))
      && CellConforms(s[5], Cell(t, i, "total_revenue"))
  {
    var s := LabSales().columns;
    RowConformsAt(LabSales(), t, i);
    CellOfRow(LabSales(), t, i, 0);
    CellOfRow(LabSales(), t, i, 1);
    CellOfRow(LabSales(), t, i, 2);
    CellOfRow(LabSales(), t, i, 3);
    CellOfRow(LabSales(), t, i, 4);
    CellOfRow(LabSales(), t, i, 5);
  }

  lemma LabSalesRowOfCells(t: Frame, i: int)
    requires 0 <= i < |t.rows| && HasLabSalesColumns(t) && Present(LabSales(), t)
    requires var s := LabSales().columns;
      && CellConforms(s[0], Cell(t, i, "order_id"))
      && CellConforms(s[1], Cell(t, i, "customer_id"))
      && CellConforms(s[2], Cell(t, i, "amount"))
      && CellConforms(s[3], Cell(t, i, "quantity"))
      && CellConforms(s[4], Cell(t, i, "order_date"))
      && CellConforms(s[5], Cell(t, i, "total_revenue"))
    ensures RowConforms(LabSales(), t, i)
  {
    var s := LabSales().columns;
    forall k | 0 <= k < |s| ensures CellConforms(s[k], Cell(t, i, s[k].name)) {
      if k == 0 {} else if k == 1 {} else if k == 2 {} else if k == 3 {} else if k == 4 {} else {}
    }
    RowConformsAt(LabSales(), t, i);
  }

  /** Row i passes the schema exactly when GoodLabSalesRow holds of it. */
  lemma LabSalesRowSpec(t: Frame, i: int)
    requires 0 <= i < |t.rows| && HasLabSalesColumns(t)
    ensures Present(LabSales(), t)
    ensures RowConforms(LabSales(), t, i) <==> GoodLabSalesRow(t, i)
  {
    LabSalesPresent(t);
    LabSalesGoodCells(t, i);
    if RowConforms(LabSales(), t, i) {
      LabSalesCellsOfRow(t, i);
    }
    if GoodLabSalesRow(t, i) {
      LabSalesRowOfCells(t, i);
    }
  }

  lemma LabSalesWholeColumns(t: Frame)
    requires HasLabSalesColumns(t)
    ensures Present(LabSales(), t)
    ensures forall spec :: spec in LabSales().columns ==> WholeColumnConforms(spec, Col(t, spec.name))
  {
    LabSalesPresent(t);
  }

  /** The schema accepts a table exactly when the six columns are present (others may be too) and
      every row is a good lab sales row. */
  lemma LabSalesSpec(t: Frame)
    ensures Conforms(LabSales(), t) <==>
      && HasLabSalesColumns(t)
      && (forall i :: 0 <= i < |t.rows| ==> GoodLabSalesRow(t, i))
  {
    ConformsByRows(LabSales(), t);
    LabSalesPresent(t);
    if HasLabSalesColumns(t) {
      LabSalesWholeColumns(t);
      forall i | 0 <= i < |t.rows| ensures RowConforms(LabSales(), t, i) <==> GoodLabSalesRow(t, i) {
        LabSalesRowSpec(t, i);
      }
    }
  }
}
