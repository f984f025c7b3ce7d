/**
 * The sales schemas of the exam-preparation pipeline: dtypes on input; on output a lower-case region,
 * positive quantity and price, and non-negative total_sales.
 */
module ExamPrepSalesSchema {
  import opened Results
  import opened Frames
  import opened Schemas
  import opened Text

  /** The seven sales columns with their dtypes. */
  function InputSales(): Schema {
    Schema([
      Required("sales_id", IntType, []),
      Required("product_id", IntType, []),
      Required("region", StrType, []),
      Required("quantity", IntType, []),
      Required("price", FloatType, []),
      Required("timestamp", DateType, []),
      Required("total_sales", FloatType, [])], false)
  }

  /** The cleaned sales columns: region lower-case (`str.islower`), quantity and price positive,
      total_sales non-negative. */
  function OutputSales(): Schema {
    Schema([
      Required("sales_id", IntType, []),
      Required("product_id", IntType, []),
      Required("region", StrType, [AllLower]),
      Required("quantity", IntType, [Gt(0.0)]),
      Required("price", FloatType, [Gt(0.0)]),
      Required("timestamp", DateType, []),
      Required("total_sales", FloatType, [Ge(0.0)])], false)
  }

  /** validate_input_sales_schema: the table back when it conforms; the SchemaError escapes the handler otherwise. */
  function ValidateInputSales(t: Frame): (r: Result<Frame>)
    ensures r.Ok? <==> Conforms(InputSales(), t)
    ensures r.Ok? ==> r.value == t
    ensures r.Err? ==> r.error == SchemaError
  {
    PreValidate(InputSales(), t)
  }

  /** validate_output_sales_schema: the table back when it conforms, SchemaError otherwise. */
  function ValidateOutputSales(t: Frame): (r: Result<Frame>)
    ensures r.Ok? <==> Conforms(OutputSales(), t)
    ensures r.Ok? ==> r.value == t
    ensures r.Err? ==> r.error == SchemaError
  {
    Validate(OutputSales(), t, false)
  }

  /** All seven sales columns are present. */
  predicate HasSalesColumns(t: Frame) {
    && "sales_id" in t.columns && "product_id" in t.columns && "region" in t.columns
    && "quantity" in t.columns && "price" in t.columns && "timestamp" in t.columns
    && "total_sales" in t.columns
  }

  /** One input sales row with every cell of its column's dtype. */
  predicate TypedSalesRow(t: Frame, i: int)
    requires 0 <= i < |t.rows| && HasSalesColumns(t)
  {
    && Cell(t, i, "sales_id").Int?
    && Cell(t, i, "product_id").Int?
    && Cell(t, i, "region").Str?
    && Cell(t, i, "quantity").Int?
    && Cell(t, i, "price").Real?
    && Cell(t, i, "timestamp").Date?
    && Cell(t, i, "total_sales").Real?
  }

  lemma InputSalesPresent(t: Frame)
    ensures Present(InputSales(), t) <==> HasSalesColumns(t)
  {
    var s := InputSales().columns;
    if Present(InputSales(), t) {
      assert s[0] in s && s[1] in s && s[2] in s && s[3] in s && s[4] in s && s[5] in s && s[6] in s;
    }
    if HasSalesColumns(t) {
      forall spec | spec in s ensures spec.name in t.columns {
      }
    }
  }

  lemma InputSalesCells0(t: Frame, i: int)
    requires 0 <= i < |t.rows| && HasSalesColumns(t)
    ensures CellConforms(InputSales().columns[0], Cell(t, i, "sales_id")) <==> Cell(t, i, "sales_id").Int?
    ensures CellConforms(InputSales().columns[1], Cell(t, i, "product_id")) <==> Cell(t, i, "product_id").Int?
    ensures CellConforms(InputSales().columns[2], Cell(t, i, "region")) <==> Cell(t, i, "region").Str?
  {
    var s := InputSales().columns;
    CellConformsPlain(s[0], Cell(t, i, "sales_id"));
    CellConformsPlain(s[1], Cell(t, i, "product_id"));
    CellConformsPlain(s[2], Cell(t, i, "region"));
  }

  lemma InputSalesCells1(t: Frame, i: int)
    requires 0 <= i < |t.rows| && HasSalesColumns(t)
    ensures CellConforms(InputSales().columns[3], Cell(t, i, "quantity")) <==> Cell(t, i, "quantity").Int?
    ensures CellConforms(InputSales().columns[4], Cell(t, i, "price")) <==> Cell(t, i, "price").Real?
    ensures CellConforms(InputSales().columns[5], Cell(t, i, "timestamp")) <==> Cell(t, i, "timestamp").Date?
  {
    var s := InputSales().columns;
    CellConformsPlain(s[3], Cell(t, i, "quantity"));
    CellConformsPlain(s[4], Cell(t, i, "price"));
    CellConformsPlain(s[5], Cell(t, i, "timestamp"));
  }

  lemma InputSalesCells2(t: Frame, i: int)
    requires 0 <= i < |t.rows| && HasSalesColumns(t)
    ensures CellConforms(InputSales().columns[6], Cell(t, i, "total_sales")) <==> Cell(t, i, "total_sales").Real?
  {
    var s := InputSales().columns;
    CellConformsPlain(s[6], Cell(t, i, "total_sales"));
  }

  lemma InputSalesGoodCells(t: Frame, i: int)
    requires 0 <= i < |t.rows| && HasSalesColumns(t)
    ensures var s := InputSales().columns;
      TypedSalesRow(t, i) <==>
      && CellConforms(s[0], Cell(t, i, "sales_id"))
      && CellConforms(s[1], Cell(t, i, "product_id"))
      && CellConforms(s[2], Cell(t, i, "region"))
      && CellConforms(s[3], Cell(t, i, "quantity"))
      && CellConforms(s[4], Cell(t, i, "price"))
      && CellConforms(s[5], Cell(t, i, "timestamp"))
      && CellConforms(s[6], Cell(t, i, "total_sales"))
  {
    InputSalesCells0(t, i);
    InputSalesCells1(t, i);
    InputSalesCells2(t, i);
  }

  lemma InputSalesCellsOfRow(t: Frame, i: int)
    requires 0 <= i < |t.rows| && HasSalesColumns(t) && Present(InputSales(), t)
    requires RowConforms(InputSales(), t, i)
    ensures var s := InputSales().columns;
      && CellConforms(s[0], Cell(t, i, "sales_id"))
      && CellConforms(s[1], Cell(t, i, "product_id"))
      && CellConforms(s[2], Cell(t, i, "region"))
      && CellConforms(s[3], Cell(t, i, "quantity"))
      && CellConforms(s[4], Cell(t, i, "price"))
      && CellConforms(s[5], Cell(t, i, "timestamp"))
      && CellConforms(s[6], Cell(t, i, "total_sales"))
  {
    var s := InputSales().columns;
    RowConformsAt(InputSales(), t, i);
    CellOfRow(InputSales(), t, i, 0);
    CellOfRow(InputSales(), t, i, 1);
    CellOfRow(InputSales(), t, i, 2);
    CellOfRow(InputSales(), t, i, 3);
    CellOfRow(InputSales(), t, i, 4);
    CellOfRow(InputSales(), t, i, 5);
    CellOfRow(InputSales(), t, i, 6);
  }

  lemma InputSalesRowOfCells(t: Frame, i: int)
    requires 0 <= i < |t.rows| && HasSalesColumns(t) && Present(InputSales(), t)
    requires var s := InputSales().columns;
      && CellConforms(s[0], Cell(t, i, "sales_id"))
      && CellConforms(s[1], Cell(t, i, "product_id"))
      && CellConforms(s[2], Cell(t, i, "region"))
      && CellConforms(s[3], Cell(t, i, "quantity"))
      && CellConforms(s[4], Cell(t, i, "price"))
      && CellConforms(s[5], Cell(t, i, "timestamp"))
      && CellConforms(s[6], Cell(t, i, "total_sales"))
    ensures RowConforms(InputSales(), t, i)
  {
    var s := InputSales().columns;
    forall k | 0 <= k < |s| ensures CellConforms(s[k], Cell(t, i, s[k].name)) {
      if k == 0 {} else if k == 1 {} else if k == 2 {} else if k == 3 {} else if k == 4 {} else if k == 5 {} else {}
    }
    RowConformsAt(InputSales(), t, i);
  }

  /** Row i passes the schema exactly when TypedSalesRow holds of it. */
  lemma InputSalesRowSpec(t: Frame, i: int)
    requires 0 <= i < |t.rows| && HasSalesColumns(t)
    ensures Present(InputSales(), t)
    ensures RowConforms(InputSales(), t, i) <==> TypedSalesRow(t, i)
  {
    InputSalesPresent(t);
    InputSalesGoodCells(t, i);
    if RowConforms(InputSales(), t, i) {
      InputSalesCellsOfRow(t, i);
    }
    if TypedSalesRow(t, i) {
      InputSalesRowOfCells(t, i);
    }
  }

  lemma InputSalesWholeColumns(t: Frame)
    requires HasSalesColumns(t)
    ensures Present(InputSales(), t)
    ensures forall spec :: spec in InputSales().columns ==> WholeColumnConforms(spec, Col(t, spec.name))
  {
    InputSalesPresent(t);
  }

  /** The input schema accepts a table exactly when the seven columns are present and every cell has
      its column's dtype. */
  lemma InputSalesSpec(t: Frame)
    ensures Conforms(InputSales(), t) <==>
      && HasSalesColumns(t)
      && (forall i :: 0 <= i < |t.rows| ==> TypedSalesRow(t, i))
  {
    ConformsByRows(InputSales(), t);
    InputSalesPresent(t);
    if HasSalesColumns(t) {
      InputSalesWholeColumns(t);
      forall i | 0 <= i < |t.rows| ensures RowConforms(InputSales(), t, i) <==> TypedSalesRow(t, i) {
        InputSalesRowSpec(t, i);
      }
    }
  }

  /** One cleaned sales row. */
  predicate GoodSalesRow(t: Frame, i: int)
    requires 0 <= i < |t.rows| && HasSalesColumns(t)
  {
    && Cell(t, i, "sales_id").Int?
    && Cell(t, i, "product_id").Int?
    && Cell(t, i, "region").Str? && IsLowerStr(Cell(t, i, "region").s)
    && Cell(t, i, "quantity").Int? && Cell(t, i, "quantity").i > 0
    && Cell(t, i, "price").Real? && Cell(t, i, "price").r > 0.0
    && Cell(t, i, "timestamp").Date?
    && Cell(t, i, "total_sales").Real? && Cell(t, i, "total_sales").r >= 0.0
  }

  lemma OutputSalesPresent(t: Frame)
    ensures Present(OutputSales(), t) <==> HasSalesColumns(t)
  {
    var s := OutputSales().columns;
    if Present(OutputSales(), t) {
      assert s[0] in s && s[1] in s && s[2] in s && s[3] in s && s[4] in s && s[5] in s && s[6] in s;
    }
    if HasSalesColumns(t) {
      forall spec | spec in s ensures spec.name in t.columns {
      }
    }
  }

  lemma OutputSalesCells0(t: Frame, i: int)
    requires 0 <= i < |t.rows| && HasSalesColumns(t)
    ensures CellConforms(OutputSales().columns[0], Cell(t, i, "sales_id")) <==> Cell(t, i, "sales_id").Int?
    ensures CellConforms(OutputSales().columns[1], Cell(t, i, "product_id")) <==> Cell(t, i, "product_id").Int?
    ensures CellConforms(OutputSales().columns[2], Cell(t, i, "region")) <==> Cell(t, i, "region").Str? && IsLowerStr(Cell(t, i, "region").s)
  {
    var s := OutputSales().columns;
    CellConformsPlain(s[0], Cell(t, i, "sales_id"));
    CellConformsPlain(s[1], Cell(t, i, "product_id"));
    CellConformsOne(s[2], Cell(t, i, "region"), AllLower);
  }

  lemma OutputSalesCells1(t: Frame, i: int)
    requires 0 <= i < |t.rows| && HasSalesColumns(t)
    ensures CellConforms(OutputSales().columns[3], Cell(t, i, "quantity")) <==> Cell(t, i, "quantity").Int? && Cell(t, i, "quantity").i > 0
    ensures CellConforms(OutputSales().columns[4], Cell(t, i, "price")) <==> Cell(t, i, "price").Real? && Cell(t, i, "price").r > 0.0
    ensures CellConforms(OutputSales().columns[5], Cell(t, i, "timestamp")) <==> Cell(t, i, "timestamp").Date?
  {
    var s := OutputSales().columns;
    CellConformsOne(s[3], Cell(t, i, "quantity"), Gt(0.0));
    CellConformsOne(s[4], Cell(t, i, "price"), Gt(0.0));
    CellConformsPlain(s[5], Cell(t, i, "timestamp"));
  }

  lemma OutputSalesCells2(t: Frame, i: int)
    requires 0 <= i < |t.rows| && HasSalesColumns(t)
    ensures CellConforms(OutputSales().columns[6], Cell(t, i, "total_sales")) <==> Cell(t, i, "total_sales").Real? && Cell(t, i, "total_sales").r >= 0.0
  {
    var s := OutputSales().columns;
    CellConformsOne(s[6], Cell(t, i, "total_sales"), Ge(0.0));
  }

  lemma OutputSalesGoodCells(t: Frame, i: int)
    requires 0 <= i < |t.rows| && HasSalesColumns(t)
    ensures var s := OutputSales().columns;
      GoodSalesRow(t, i) <==>
      && CellConforms(s[0], Cell(t, i, "sales_id"))
      && CellConforms(s[1], Cell(t, i, "product_id"))
      && CellConforms(s[2], Cell(t, i, "region"))
      && CellConforms(s[3], Cell(t, i, "quantity"))
      && CellConforms(s[4], Cell(t, i, "price"))
      && CellConforms(s[5], Cell(t, i, "timestamp"))
      && CellConforms(s[6], Cell(t, i, "total_sales"))
  {
    OutputSalesCells0(t, i);
    OutputSalesCells1(t, i);
    OutputSalesCells2(t, i);
  }

  lemma OutputSalesCellsOfRow(t: Frame, i: int)
    requires 0 <= i < |t.rows| && HasSalesColumns(t) && Present(OutputSales(), t)
    requires RowConforms(OutputSales(), t, i)
    ensures var s := OutputSales().columns;
      && CellConforms(s[0], Cell(t, i, "sales_id"))
      && CellConforms(s[1], Cell(t, i, "product_id"))
      && CellConforms(s[2], Cell(t, i, "region"))
      && CellConforms(s[3], Cell(t, i, "quantity"))
      && CellConforms(s[4], Cell(t, i, "price"))
      && CellConforms(s[5], Cell(t, i, "timestamp"))
      && CellConforms(s[6], Cell(t, i, "total_sales"))
  {
    var s := OutputSales().columns;
    RowConformsAt(OutputSales(), t, i);
    CellOfRow(OutputSales(), t, i, 0);
    CellOfRow(OutputSales(), t, i, 1);
    CellOfRow(OutputSales(), t, i, 2);
    CellOfRow(OutputSales(), t, i, 3);
    CellOfRow(OutputSales(), t, i, 4);
    CellOfRow(OutputSales(), t, i, 5);
    CellOfRow(OutputSales(), t, i, 6);
  }

  lemma OutputSalesRowOfCells(t: Frame, i: int)
    requires 0 <= i < |t.rows| && HasSalesColumns(t) && Present(OutputSales(), t)
    requires var s := OutputSales().columns;
      && CellConforms(s[0], Cell(t, i, "sales_id"))
      && CellConforms(s[1], Cell(t, i, "product_id"))
      && CellConforms(s[2], Cell(t, i, "region"))
      && CellConforms(s[3], Cell(t, i, "quantity"))
      && CellConforms(s[4], Cell(t, i, "price"))
      && CellConforms(s[5], Cell(t, i, "timestamp"))
      && CellConforms(s[6], Cell(t, i, "total_sales"))
    ensures RowConforms(OutputSales(), t, i)
  {
    var s := OutputSales().columns;
    forall k | 0 <= k < |s| ensures CellConforms(s[k], Cell(t, i, s[k].name)) {
      if k == 0 {} else if k == 1 {} else if k == 2 {} else if k == 3 {} else if k == 4 {} else if k == 5 {} else {}
    }
    RowConformsAt(OutputSales(), t, i);
  }

  /** Row i passes the schema exactly when GoodSalesRow holds of it. */
  lemma OutputSalesRowSpec(t: Frame, i: int)
    requires 0 <= i < |t.rows| && HasSalesColumns(t)
    ensures Present(OutputSales(), t)
    ensures RowConforms(OutputSales(), t, i) <==> GoodSalesRow(t, i)
  {
    OutputSalesPresent(t);
    OutputSalesGoodCells(t, i);
    if RowConforms(OutputSales(), t, i) {
      OutputSalesCellsOfRow(t, i);
    }
    if GoodSalesRow(t, i) {
      OutputSalesRowOfCells(t, i);
    }
  }

  lemma OutputSalesWholeColumns(t: Frame)
    requires HasSalesColumns(t)
    ensures Present(OutputSales(), t)
    ensures forall spec :: spec in OutputSales().columns ==> WholeColumnConforms(spec, Col(t, spec.name))
  {
    OutputSalesPresent(t);
  }

  /** The output schema accepts a table exactly when the seven columns are present and every row is a
      good sales row. */
  lemma OutputSalesSpec(t: Frame)
    ensures Conforms(OutputSales(), t) <==>
      && HasSalesColumns(t)
      && (forall i :: 0 <= i < |t.rows| ==> GoodSalesRow(t, i))
  {
    ConformsByRows(OutputSales(), t);
    OutputSalesPresent(t);
    if HasSalesColumns(t) {
      OutputSalesWholeColumns(t);
      forall i | 0 <= i < |t.rows| ensures RowConforms(OutputSales(), t, i) <==> GoodSalesRow(t, i) {
        OutputSalesRowSpec(t, i);
      }
    }
  }
}
