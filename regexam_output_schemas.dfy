/**
 * The cleaned output schemas of the regular-exam pipeline. Here discount lies in [0, 1], the
 * category starts with a capital letter and the brand is "Brand" and one capital letter.
 */
module RegExamOutputSchemas {
  import opened Results
  import opened Frames
  import opened Schemas
  import opened Text
  import Patterns

  /** The eight cleaned sales columns. */
  function OutputSales(): Schema {
    Schema([
      Required("sales_id", IntType, [Gt(0.0)]),
      Required("product_id", IntType, [Gt(0.0)]),
      Required("region", StrType, [AllLower]),
      Required("quantity", IntType, [Gt(0.0)]),
      Required("price", FloatType, [Gt(0.0)]),
      Required("timestamp", DateType, []),
      Required("discount", FloatType, [InRange(0.0, 1.0)]),
      Required("order_status", StrType, [])], false)
  }

  /** The six cleaned product columns. */
  function OutputProducts(): Schema {
    Schema([
      Required("product_id", IntType, [Gt(0.0)]),
      Required("category", StrType, [FirstUpper]),
      Required("brand", StrType, [Check.Matches(Patterns.BrandLetter)]),
      Required("rating", FloatType, [InRange(0.0, 5.0)]),
      Required("in_stock", BoolType, []),
      Required("launch_date", DateType, [])], false)
  }

  /** sales_output_schema.validate: the table back when it conforms, SchemaError otherwise. */
  function ValidateOutputSales(t: Frame): (r: Result<Frame>)
    ensures r.Ok? <==> Conforms(OutputSales(), t)
    ensures r.Ok? ==> r.value == t
    ensures r.Err? ==> r.error == SchemaError
  {
    Validate(OutputSales(), t, false)
  }

  /** product_output_schema.validate: the table back when it conforms, SchemaError otherwise. */
  function ValidateOutputProducts(t: Frame): (r: Result<Frame>)
    ensures r.Ok? <==> Conforms(OutputProducts(), t)
    ensures r.Ok? ==> r.value == t
    ensures r.Err? ==> r.error == SchemaError
  {
    Validate(OutputProducts(), t, false)
  }

  /** All eight cleaned sales columns are present. */
  predicate HasSalesColumns(t: Frame) {
    && "sales_id" in t.columns && "product_id" in t.columns && "region" in t.columns
    && "quantity" in t.columns && "price" in t.columns && "timestamp" in t.columns
    && "discount" in t.columns && "order_status" in t.columns
  }

  /** All six cleaned product columns are present. */
  predicate HasProductColumns(t: Frame) {
    && "product_id" in t.columns && "category" in t.columns && "brand" in t.columns
    && "rating" in t.columns && "in_stock" in t.columns && "launch_date" in t.columns
  }

  /** One cleaned sales row: positive ids, quantity and price, a lower-case region, a date, a discount in [0, 1]. */
  predicate GoodSalesRow(t: Frame, i: int)
    requires 0 <= i < |t.rows| && HasSalesColumns(t)
  {
    && Cell(t, i, "sales_id").Int? && Cell(t, i, "sales_id").i > 0
    && Cell(t, i, "product_id").Int? && Cell(t, i, "product_id").i > 0
    && Cell(t, i, "region").Str? && IsLowerStr(Cell(t, i, "region").s)
    && Cell(t, i, "quantity").Int? && Cell(t, i, "quantity").i > 0
    && Cell(t, i, "price").Real? && Cell(t, i, "price").r > 0.0
    && Cell(t, i, "timestamp").Date?
    && Cell(t, i, "discount").Real? && 0.0 <= Cell(t, i, "discount").r <= 1.0
    && Cell(t, i, "order_status").Str?
  }

  lemma OutputSalesPresent(t: Frame)
    ensures Present(OutputSales(), t) <==> HasSalesColumns(t)
  {
    var s := OutputSales().columns;
    if Present(OutputSales(), t) {
      assert s[0] in s && s[1] in s && s[2] in s && s[3] in s && s[4] in s && s[5] in s && s[6] in s && s[7] in s;
    }
    if HasSalesColumns(t) {
      forall spec | spec in s ensures spec.name in t.columns {
      }
    }
  }

  lemma OutputSalesCells0(t: Frame, i: int)
    requires 0 <= i < |t.rows| && HasSalesColumns(t)
    ensures CellConforms(OutputSales().columns[0], Cell(t, i, "sales_id")) <==> Cell(t, i, "sales_id").Int? && Cell(t, i, "sales_id").i > 0
    ensures CellConforms(OutputSales().columns[1], Cell(t, i, "product_id")) <==> Cell(t, i, "product_id").Int? && Cell(t, i, "product_id").i > 0
    ensures CellConforms(OutputSales().columns[2], Cell(t, i, "region")) <==> Cell(t, i, "region").Str? && IsLowerStr(Cell(t, i, "region").s)
  {
    var s := OutputSales().columns;
    CellConformsOne(s[0], Cell(t, i, "sales_id"), Gt(0.0));
    CellConformsOne(s[1], Cell(t, i, "product_id"), Gt(0.0));
    CellConformsOne(s[2], Cell(t, i, "region"), AllLower);
  }

  lemma OutputSalesCells1(t: Frame, i: int)
    requires 0 <= i < |t.rows| && HasSalesColumns(t)
    ensures CellConforms(OutputSales().columns[3], Cell(t, i, "quantity")) <==> Cell(t, i, "quantity").Int? && Cell(t, i, "quantity").i > 0
    ensures CellConforms(OutputSales().columns[4], Cell(t, i, "price")) <==> Cell(t, i, "price").Real? && Cell(t, i, "price").r > 0.0
    ensures CellConforms(OutputSales().columns[5], Cell(t, i, "timestamp")) <==> Cell(t, i, "timestamp").Date?
  {
    var s := OutputSales().columns;
    CellConformsOne(s[3], Cell(t, i, "quantity"), Gt(0.0));
    CellConformsOne(s[4], Cell(t, i, "price"), Gt(0.0));
    CellConformsPlain(s[5], Cell(t, i, "timestamp"));
  }

  lemma OutputSalesCells2(t: Frame, i: int)
    requires 0 <= i < |t.rows| && HasSalesColumns(t)
    ensures CellConforms(OutputSales().columns[6], Cell(t, i, "discount")) <==> Cell(t, i, "discount").Real? && 0.0 <= Cell(t, i, "discount").r <= 1.0
    ensures CellConforms(OutputSales().columns[7], Cell(t, i, "order_status")) <==> Cell(t, i, "order_status").Str?
  {
    var s := OutputSales().columns;
    CellConformsOne(s[6], Cell(t, i, "discount"), InRange(0.0, 1.0));
    CellConformsPlain(s[7], Cell(t, i, "order_status"));
  }

  lemma OutputSalesGoodCells(t: Frame, i: int)
    requires 0 <= i < |t.rows| && HasSalesColumns(t)
    ensures var s := OutputSales().columns;
      GoodSalesRow(t, i) <==>
      && CellConforms(s[0], Cell(t, i, "sales_id"))
      && CellConforms(s[1], Cell(t, i, "product_id"))
      && CellConforms(s[2], Cell(t, i, "region"))
      && CellConforms(s[3], Cell(t, i, "quantity"))
      && CellConforms(s[4], Cell(t, i, "price"))
      && CellConforms(s[5], Cell(t, i, "timestamp"))
      && CellConforms(s[6], Cell(t, i, "discount"))
      && CellConforms(s[7], Cell(t, i, "order_status"))
  {
    OutputSalesCells0(t, i);
    OutputSalesCells1(t, i);
    OutputSalesCells2(t, i);
  }

  lemma OutputSalesCellsOfRow(t: Frame, i: int)
    requires 0 <= i < |t.rows| && HasSalesColumns(t) && Present(OutputSales(), t)
    requires RowConforms(OutputSales(), t, i)
    ensures var s := OutputSales().columns;
      && CellConforms(s[0], Cell(t, i, "sales_id"))
      && CellConforms(s[1], Cell(t, i, "product_id"))
      && CellConforms(s[2], Cell(t, i, "region"))
      && CellConforms(s[3], Cell(t, i, "quantity"))
      && CellConforms(s[4], Cell(t, i, "price"))
      && CellConforms(s[5], Cell(t, i, "timestamp"))
      && CellConforms(s[6], Cell(t, i, "discount"))
      && CellConforms(s[7], Cell(t, i, "order_status"))
  {
    var s := OutputSales().columns;
    RowConformsAt(OutputSales(), t, i);
    CellOfRow(OutputSales(), t, i, 0);
    CellOfRow(OutputSales(), t, i, 1);
    CellOfRow(OutputSales(), t, i, 2);
    CellOfRow(OutputSales(), t, i, 3);
    CellOfRow(OutputSales(), t, i, 4);
    CellOfRow(OutputSales(), t, i, 5);
    CellOfRow(OutputSales(), t, i, 6);
    CellOfRow(OutputSales(), t, i, 7);
  }

  lemma OutputSalesRowOfCells(t: Frame, i: int)
    requires 0 <= i < |t.rows| && HasSalesColumns(t) && Present(OutputSales(), t)
    requires var s := OutputSales().columns;
      && CellConforms(s[0], Cell(t, i, "sales_id"))
      && CellConforms(s[1], Cell(t, i, "product_id"))
      && CellConforms(s[2], Cell(t, i, "region"))
      && CellConforms(s[3], Cell(t, i, "quantity"))
      && CellConforms(s[4], Cell(t, i, "price"))
      && CellConforms(s[5], Cell(t, i, "timestamp"))
      && CellConforms(s[6], Cell(t, i, "discount"))
      && CellConforms(s[7], Cell(t, i, "order_status"))
    ensures RowConforms(OutputSales(), t, i)
  {
    var s := OutputSales().columns;
    forall k | 0 <= k < |s| ensures CellConforms(s[k], Cell(t, i, s[k].name)) {
      if k == 0 {} else if k == 1 {} else if k == 2 {} else if k == 3 {} else if k == 4 {} else if k == 5 {} else if k == 6 {} else {}
    }
    RowConformsAt(OutputSales(), t, i);
  }

  /** Row i passes the schema exactly when GoodSalesRow holds of it. */
  lemma OutputSalesRowSpec(t: Frame, i: int)
    requires 0 <= i < |t.rows| && HasSalesColumns(t)
    ensures Present(OutputSales(), t)
    ensures RowConforms(OutputSales(), t, i) <==> GoodSalesRow(t, i)
  {
    OutputSalesPresent(t);
    OutputSalesGoodCells(t, i);
    if RowConforms(OutputSales(), t, i) {
      OutputSalesCellsOfRow(t, i);
    }
    if GoodSalesRow(t, i) {
      OutputSalesRowOfCells(t, i);
    }
  }

  lemma OutputSalesWholeColumns(t: Frame)
    requires HasSalesColumns(t)
    ensures Present(OutputSales(), t)
    ensures forall spec :: spec in OutputSales().columns ==> WholeColumnConforms(spec, Col(t, spec.name))
  {
    OutputSalesPresent(t);
  }

  /** The output sales schema accepts a table exactly when the eight columns are present and every row
      is a good sales row. */
  lemma OutputSalesSpec(t: Frame)
    ensures Conforms(OutputSales(), t) <==>
      && HasSalesColumns(t)
      && (forall i :: 0 <= i < |t.rows| ==> GoodSalesRow(t, i))
  {
    ConformsByRows(OutputSales(), t);
    OutputSalesPresent(t);
    if HasSalesColumns(t) {
      OutputSalesWholeColumns(t);
      forall i | 0 <= i < |t.rows| ensures RowConforms(OutputSales(), t, i) <==> GoodSalesRow(t, i) {
        OutputSalesRowSpec(t, i);
      }
    }
  }

  /** One cleaned product row: positive id, capitalised category, a BrandX brand, rating in [0, 5]. */
  predicate GoodProductRow(t: Frame, i: int)
    requires 0 <= i < |t.rows| && HasProductColumns(t)
  {
    && Cell(t, i, "product_id").Int? && Cell(t, i, "product_id").i > 0
    && Cell(t, i, "category").Str? && |Cell(t, i, "category").s| > 0 && IsUpperLetter(Cell(t, i, "category").s[0])
    && Cell(t, i, "brand").Str? && Patterns.Matches(Patterns.BrandLetter, Cell(t, i, "brand").s)
    && Cell(t, i, "rating").Real? && 0.0 <= Cell(t, i, "rating").r <= 5.0
    && Cell(t, i, "in_stock").Bool?
    && Cell(t, i, "launch_date").Date?
  }

  lemma OutputProductsPresent(t: Frame)
    ensures Present(OutputProducts(), t) <==> HasProductColumns(t)
  {
    var s := OutputProducts().columns;
    if Present(OutputProducts(), t) {
      assert s[0] in s && s[1] in s && s[2] in s && s[3] in s && s[4] in s && s[5] in s;
    }
    if HasProductColumns(t) {
      forall spec | spec in s ensures spec.name in t.columns {
      }
    }
  }

  lemma OutputProductsCells0(t: Frame, i: int)
    requires 0 <= i < |t.rows| && HasProductColumns(t)
    ensures CellConforms(OutputProducts().columns[0], Cell(t, i, "product_id")) <==> Cell(t, i, "product_id").Int? && Cell(t, i, "product_id").i > 0
    ensures CellConforms(OutputProducts().columns[1], Cell(t, i, "category")) <==> Cell(t, i, "category").Str? && |Cell(t, i, "category").s| > 0 && IsUpperLetter(Cell(t, i, "category").s[0])
    ensures CellConforms(OutputProducts().columns[2], Cell(t, i, "brand")) <==> Cell(t, i, "brand").Str? && Patterns.Matches(Patterns.BrandLetter, Cell(t, i, "brand").s)
  {
    var s := OutputProducts().columns;
    CellConformsOne(s[0], Cell(t, i, "product_id"), Gt(0.0));
    CellConformsOne(s[1], Cell(t, i, "category"), FirstUpper);
    CellConformsOne(s[2], Cell(t, i, "brand"), Check.Matches(Patterns.BrandLetter));
  }

  lemma OutputProductsCells1(t: Frame, i: int)
    requires 0 <= i < |t.rows| && HasProductColumns(t)
    ensures CellConforms(OutputProducts().columns[3], Cell(t, i, "rating")) <==> Cell(t, i, "rating").Real? && 0.0 <= Cell(t, i, "rating").r <= 5.0
    ensures CellConforms(OutputProducts().columns[4], Cell(t, i, "in_stock")) <==> Cell(t, i, "in_stock").Bool?
    ensures CellConforms(OutputProducts().columns[5], Cell(t, i, "launch_date")) <==> Cell(t, i, "launch_date").Date?
  {
    var s := OutputProducts().columns;
    CellConformsOne(s[3], Cell(t, i, "rating"), InRange(0.0, 5.0));
    CellConformsPlain(s[4], Cell(t, i, "in_stock"));
    CellConformsPlain(s[5], Cell(t, i, "launch_date"));
  }

  lemma OutputProductsGoodCells(t: Frame, i: int)
    requires 0 <= i < |t.rows| && HasProductColumns(t)
    ensures var s := OutputProducts().columns;
      GoodProductRow(t, i) <==>
      && CellConforms(s[0], Cell(t, i, "product_id"))
      && CellConforms(s[1], Cell(t, i, "category"))
      && CellConforms(s[2], Cell(t, i, "brand"))
      && CellConforms(s[3], Cell(t, i, "rating"))
      && CellConforms(s[4], Cell(t, i, "in_stock"))
      && CellConforms(s[5], Cell(t, i, "launch_date"))
  {
    OutputProductsCells0(t, i);
    OutputProductsCells1(t, i);
  }

  lemma OutputProductsCellsOfRow(t: Frame, i: int)
    requires 0 <= i < |t.rows| && HasProductColumns(t) && Present(OutputProducts(), t)
    requires RowConforms(OutputProducts(), t, i)
    ensures var s := OutputProducts().columns;
      && CellConforms(s[0], Cell(t, i, "product_id"))
      && CellConforms(s[1], Cell(t, i, "category"))
      && CellConforms(s[2], Cell(t, i, "brand"))
      && CellConforms(s[3], Cell(t, i, "rating"))
      && CellConforms(s[4], Cell(t, i, "in_stock"))
      && CellConforms(s[5], Cell(t, i, "launch_date"))
  {
    var s := OutputProducts().columns;
    RowConformsAt(OutputProducts(), t, i);
    CellOfRow(OutputProducts(), t, i, 0);
    CellOfRow(OutputProducts(), t, i, 1);
    CellOfRow(OutputProducts(), t, i, 2);
    CellOfRow(OutputProducts(), t, i, 3);
    CellOfRow(OutputProducts(), t, i, 4);
    CellOfRow(OutputProducts(), t, i, 5);
  }

  lemma OutputProductsRowOfCells(t: Frame, i: int)
    requires 0 <= i < |t.rows| && HasProductColumns(t) && Present(OutputProducts(), t)
    requires var s := OutputProducts().columns;
      && CellConforms(s[0], Cell(t, i, "product_id"))
      && CellConforms(s[1], Cell(t, i, "category"))
      && CellConforms(s[2], Cell(t, i, "brand"))
      && CellConforms(s[3], Cell(t, i, "rating"))
      && CellConforms(s[4], Cell(t, i, "in_stock"))
      && CellConforms(s[5], Cell(t, i, "launch_date"))
    ensures RowConforms(OutputProducts(), t, i)
  {
    var s := OutputProducts().columns;
    forall k | 0 <= k < |s| ensures CellConforms(s[k], Cell(t, i, s[k].name)) {
      if k == 0 {} else if k == 1 {} else if k == 2 {} else if k == 3 {} else if k == 4 {} else {}
    }
    RowConformsAt(OutputProducts(), t, i);
  }

  /** Row i passes the schema exactly when GoodProductRow holds of it. */
  lemma OutputProductsRowSpec(t: Frame, i: int)
    requires 0 <= i < |t.rows| && HasProductColumns(t)
    ensures Present(OutputProducts(), t)
    ensures RowConforms(OutputProducts(), t, i) <==> GoodProductRow(t, i)
  {
    OutputProductsPresent(t);
    OutputProductsGoodCells(t, i);
    if RowConforms(OutputProducts(), t, i) {
      OutputProductsCellsOfRow(t, i);
    }
    if GoodProductRow(t, i) {
      OutputProductsRowOfCells(t, i);
    }
  }

  lemma OutputProductsWholeColumns(t: Frame)
    requires HasProductColumns(t)
    ensures Present(OutputProducts(), t)
    ensures forall spec :: spec in OutputProducts().columns ==> WholeColumnConforms(spec, Col(t, spec.name))
  {
    OutputProductsPresent(t);
  }

  /** The output product schema accepts a table exactly when the six columns are present and every
      row is a good product row. */
  lemma OutputProductsSpec(t: Frame)
    ensures Conforms(OutputProducts(), t) <==>
      && HasProductColumns(t)
      && (forall i :: 0 <= i < |t.rows| ==> GoodProductRow(t, i))
  {
    ConformsByRows(OutputProducts(), t);
    OutputProductsPresent(t);
    if HasProductColumns(t) {
      OutputProductsWholeColumns(t);
      forall i | 0 <= i < |t.rows| ensures RowConforms(OutputProducts(), t, i) <==> GoodProductRow(t, i) {
        OutputProductsRowSpec(t, i);
      }
    }
  }

  /** A discount of 0 passes this copy of the sales schema, and any discount above 1 fails it. */
  lemma DiscountBounds(t: Frame, i: int)
    requires HasSalesColumns(t) && 0 <= i < |t.rows| && Cell(t, i, "discount").Real?
    requires ValidateOutputSales(t).Ok?
    ensures 0.0 <= Cell(t, i, "discount").r <= 1.0
  {
    OutputSalesSpec(t);
    assert GoodSalesRow(t, i);
  }

  /** An empty category fails the first-letter check. */
  lemma EmptyCategoryRejected(t: Frame, i: int)
    requires HasProductColumns(t) && 0 <= i < |t.rows| && Cell(t, i, "category") == Str("")
    ensures ValidateOutputProducts(t) == Err(SchemaError)
  {
    OutputProductsSpec(t);
    assert !GoodProductRow(t, i);
  }
}
