/**
 * The sales schemas of the Airflow exercise pipeline: a dtype-only "pre" schema checked before
 * cleaning and a "post" schema with value checks checked after it.
 */
module AirflowSalesSchema {
  import opened Results
  import opened Frames
  import opened Schemas

  /** The raw sales columns and their dtypes; order_id unique. */
  function PreSales(): Schema {
    Schema([
      ColumnSpec("order_id", IntType, false, true, false, []),
      Required("customer_id", IntType, []),
      Required("product_id", IntType, []),
      Required("order_date", DateType, []),
      Required("amount", FloatType, []),
      Required("quantity", IntType, []),
      Required("discount", FloatType, []),
      Required("profit", FloatType, []),
      Required("total_revenue", FloatType, [])], false)
  }

  /** The cleaned sales columns with their value checks. */
  function PostSales(): Schema {
    Schema([
      ColumnSpec("order_id", IntType, false, true, false, []),
      Required("customer_id", IntType, [Gt(0.0)]),
      Required("product_id", IntType, [Gt(0.0)]),
      Required("order_date", DateType, []),
      Required("amount", FloatType, [Ge(0.0)]),
      Required("quantity", IntType, [Ge(0.0)]),
      Required("discount", FloatType, [InRange(1.0, 100.0)]),
      Required("profit", FloatType, []),
      Required("total_revenue", FloatType, [Ge(0.0)])], false)
  }

  /** validate_pre_sales_schema: the table back when it conforms; the SchemaError escapes the handler otherwise. */
  function ValidatePreSales(t: Frame): (r: Result<Frame>)
    ensures r.Ok? <==> Conforms(PreSales(), t)
    ensures r.Ok? ==> r.value == t
    ensures r.Err? ==> r.error == SchemaError
  {
    PreValidate(PreSales(), t)
  }

  /** validate_post_sales_schema: the table back when it conforms, SchemaError otherwise. */
  function ValidatePostSales(t: Frame): (r: Result<Frame>)
    ensures r.Ok? <==> Conforms(PostSales(), t)
    ensures r.Ok? ==> r.value == t
    ensures r.Err? ==> r.error == SchemaError
  {
    Validate(PostSales(), t, false)
  }

  /** All nine sales columns are present. */
  predicate HasSalesColumns(t: Frame) {
    && "order_id" in t.columns && "customer_id" in t.columns && "product_id" in t.columns
    && "order_date" in t.columns && "amount" in t.columns && "quantity" in t.columns
    && "discount" in t.columns && "profit" in t.columns && "total_revenue" in t.columns
  }

  /** One raw sales row with every cell of its column's dtype. */
  predicate TypedSalesRow(t: Frame, i: int)
    requires 0 <= i < |t.rows| && HasSalesColumns(t)
  {
    && Cell(t, i, "order_id").Int?
    && Cell(t, i, "customer_id").Int?
    && Cell(t, i, "product_id").Int?
    && Cell(t, i, "order_date").Date?
    && Cell(t, i, "amount").Real?
    && Cell(t, i, "quantity").Int?
    && Cell(t, i, "discount").Real?
    && Cell(t, i, "profit").Real?
    && Cell(t, i, "total_revenue").Real?
  }

  lemma PreSalesPresent(t: Frame)
    ensures Present(PreSales(), t) <==> HasSalesColumns(t)
  {
    var s := PreSales().columns;
    if Present(PreSales(), t) {
      assert s[0] in s && s[1] in s && s[2] in s && s[3] in s && s[4] in s && s[5] in s && s[6] in s && s[7] in s && s[8] in s;
    }
    if HasSalesColumns(t) {
      forall spec | spec in s ensures spec.name in t.columns {
      }
    }
  }

  lemma PreSalesCells0(t: Frame, i: int)
    requires 0 <= i < |t.rows| && HasSalesColumns(t)
    ensures CellConforms(PreSales().columns[0], Cell(t, i, "order_id")) <==> Cell(t, i, "order_id").Int?
    ensures CellConforms(PreSales().columns[1], Cell(t, i, "customer_id")) <==> Cell(t, i, "customer_id").Int?
    ensures CellConforms(PreSales().columns[2], Cell(t, i, "product_id")) <==> Cell(t, i, "product_id").Int?
  {
    var s := PreSales().columns;
    CellConformsPlain(s[0], Cell(t, i, "order_id"));
    CellConformsPlain(s[1], Cell(t, i, "customer_id"));
    CellConformsPlain(s[2], Cell(t, i, "product_id"));
  }

  lemma PreSalesCells1(t: Frame, i: int)
    requires 0 <= i < |t.rows| && HasSalesColumns(t)
    ensures CellConforms(PreSales().columns[3], Cell(t, i, "order_date")) <==> Cell(t, i, "order_date").Date?
    ensures CellConforms(PreSales().columns[4], Cell(t, i, "amount")) <==> Cell(t, i, "amount").Real?
    ensures CellConforms(PreSales().columns[5], Cell(t, i, "quantity")) <==> Cell(t, i, "quantity").Int?
  {
    var s := PreSales().columns;
    CellConformsPlain(s[3], Cell(t, i, "order_date"));
    CellConformsPlain(s[4], Cell(t, i, "amount"));
    CellConformsPlain(s[5], Cell(t, i, "quantity"));
  }

  lemma PreSalesCells2(t: Frame, i: int)
    requires 0 <= i < |t.rows| && HasSalesColumns(t)
    ensures CellConforms(PreSales().columns[6], Cell(t, i, "discount")) <==> Cell(t, i, "discount").Real?
    ensures CellConforms(PreSales().columns[7], Cell(t, i, "profit")) <==> Cell(t, i, "profit").Real?
    ensures CellConforms(PreSales().columns[8], Cell(t, i, "total_revenue")) <==> Cell(t, i, "total_revenue").Real?
  {
    var s := PreSales().columns;
    CellConformsPlain(s[6], Cell(t, i, "discount"));
    CellConformsPlain(s[7], Cell(t, i, "profit"));
    CellConformsPlain(s[8], Cell(t, i, "total_revenue"));
  }

  lemma PreSalesGoodCells(t: Frame, i: int)
    requires 0 <= i < |t.rows| && HasSalesColumns(t)
    ensures var s := PreSales().columns;
      TypedSalesRow(t, i) <==>
      && CellConforms(s[0], Cell(t, i, "order_id"))
      && CellConforms(s[1], Cell(t, i, "customer_id"))
      && CellConforms(s[2], Cell(t, i, "product_id"))
      && CellConforms(s[3], Cell(t, i, "order_date"))
      && CellConforms(s[4], Cell(t, i, "amount"))
      && CellConforms(s[5], Cell(t, i, "quantity"))
      && CellConforms(s[6], Cell(t, i, "discount"))
      && CellConforms(s[7], Cell(t, i, "profit"))
      && CellConforms(s[8], Cell(t, i, "total_revenue"))
  {
    PreSalesCells0(t, i);
    PreSalesCells1(t, i);
    PreSalesCells2(t, i);
  }

  lemma PreSalesCellsOfRow(t: Frame, i: int)
    requires 0 <= i < |t.rows| && HasSalesColumns(t) && Present(PreSales(), t)
    requires RowConforms(PreSales(), t, i)
    ensures var s := PreSales().columns;
      && CellConforms(s[0], Cell(t, i, "order_id"))
      && CellConforms(s[1], Cell(t, i, "customer_id"))
      && CellConforms(s[2], Cell(t, i, "product_id"))
      && CellConforms(s[3], Cell(t, i, "order_date"))
      && CellConforms(s[4], Cell(t, i, "amount"))
      && CellConforms(s[5], Cell(t, i, "quantity"))
      && CellConforms(s[6], Cell(t, i, "discount"))
      && CellConforms(s[7], Cell(t, i, "profit"))
      && CellConforms(s[8], Cell(t, i, "total_revenue"))
  {
    var s := PreSales().columns;
    RowConformsAt(PreSales(), t, i);
    CellOfRow(PreSales(), t, i, 0);
    CellOfRow(PreSales(), t, i, 1);
    CellOfRow(PreSales(), t, i, 2);
    CellOfRow(PreSales(), t, i, 3);
    CellOfRow(PreSales(), t, i, 4);
    CellOfRow(PreSales(), t, i, 5);
    CellOfRow(PreSales(), t, i, 6);
    CellOfRow(PreSales(), t, i, 7);
    CellOfRow(PreSales(), t, i, 8);
  }

  lemma PreSalesRowOfCells(t: Frame, i: int)
    requires 0 <= i < |t.rows| && HasSalesColumns(t) && Present(PreSales(), t)
    requires var s := PreSales().columns;
      && CellConforms(s[0], Cell(t, i, "order_id"))
      && CellConforms(s[1], Cell(t, i, "customer_id"))
      && CellConforms(s[2], Cell(t, i, "product_id"))
      && CellConforms(s[3], Cell(t, i, "order_date"))
      && CellConforms(s[4], Cell(t, i, "amount"))
      && CellConforms(s[5], Cell(t, i, "quantity"))
      && CellConforms(s[6], Cell(t, i, "discount"))
      && CellConforms(s[7], Cell(t, i, "profit"))
      && CellConforms(s[8], Cell(t, i, "total_revenue"))
    ensures RowConforms(PreSales(), t, i)
  {
    var s := PreSales().columns;
    forall k | 0 <= k < |s| ensures CellConforms(s[k], Cell(t, i, s[k].name)) {
      if k == 0 {} else if k == 1 {} else if k == 2 {} else if k == 3 {} else if k == 4 {} else if k == 5 {} else if k == 6 {} else if k == 7 {} else {}
    }
    RowConformsAt(PreSales(), t, i);
  }

  /** Row i passes the schema exactly when TypedSalesRow holds of it. */
  lemma PreSalesRowSpec(t: Frame, i: int)
    requires 0 <= i < |t.rows| && HasSalesColumns(t)
    ensures Present(PreSales(), t)
    ensures RowConforms(PreSales(), t, i) <==> TypedSalesRow(t, i)
  {
    PreSalesPresent(t);
    PreSalesGoodCells(t, i);
    if RowConforms(PreSales(), t, i) {
      PreSalesCellsOfRow(t, i);
    }
    if TypedSalesRow(t, i) {
      PreSalesRowOfCells(t, i);
    }
  }

  lemma PreSalesWholeColumns(t: Frame)
    requires HasSalesColumns(t)
    ensures Present(PreSales(), t)
    ensures (forall spec :: spec in PreSales().columns ==> WholeColumnConforms(spec, Col(t, spec.name)))
      <==> Distinct(Col(t, "order_id"))
  {
    PreSalesPresent(t);
    var s := PreSales().columns;
    assert s[0] in s;
  }

  /** The pre schema accepts a table exactly when all nine columns are present, every cell has its
      column's dtype and no two rows share an order_id. */
  lemma PreSalesSpec(t: Frame)
    ensures Conforms(PreSales(), t) <==>
      && HasSalesColumns(t)
      && (forall i :: 0 <= i < |t.rows| ==> TypedSalesRow(t, i))
      && Distinct(Col(t, "order_id"))
  {
    ConformsByRows(PreSales(), t);
    PreSalesPresent(t);
    if HasSalesColumns(t) {
      PreSalesWholeColumns(t);
      forall i | 0 <= i < |t.rows| ensures RowConforms(PreSales(), t, i) <==> TypedSalesRow(t, i) {
        PreSalesRowSpec(t, i);
      }
    }
  }

  /** One cleaned sales row as the post schema wants it, written out cell by cell. */
  predicate GoodSalesRow(t: Frame, i: int)
    requires 0 <= i < |t.rows| && HasSalesColumns(t)
  {
    && Cell(t, i, "order_id").Int?
    && Cell(t, i, "customer_id").Int? && Cell(t, i, "customer_id").i > 0
    && Cell(t, i, "product_id").Int? && Cell(t, i, "product_id").i > 0
    && Cell(t, i, "order_date").Date?
    && Cell(t, i, "amount").Real? && Cell(t, i, "amount").r >= 0.0
    && Cell(t, i, "quantity").Int? && Cell(t, i, "quantity").i >= 0
    && Cell(t, i, "discount").Real? && 1.0 <= Cell(t, i, "discount").r <= 100.0
    && Cell(t, i, "profit").Real?
    && Cell(t, i, "total_revenue").Real? && Cell(t, i, "total_revenue").r >= 0.0
  }

  lemma PostSalesPresent(t: Frame)
    ensures Present(PostSales(), t) <==> HasSalesColumns(t)
  {
    var s := PostSales().columns;
    if Present(PostSales(), t) {
      assert s[0] in s && s[1] in s && s[2] in s && s[3] in s && s[4] in s && s[5] in s && s[6] in s && s[7] in s && s[8] in s;
    }
    if HasSalesColumns(t) {
      forall spec | spec in s ensures spec.name in t.columns {
      }
    }
  }

  lemma PostSalesCells0(t: Frame, i: int)
    requires 0 <= i < |t.rows| && HasSalesColumns(t)
    ensures CellConforms(PostSales().columns[0], Cell(t, i, "order_id")) <==> Cell(t, i, "order_id").Int?
    ensures CellConforms(PostSales().columns[1], Cell(t, i, "customer_id")) <==> Cell(t, i, "customer_id").Int? && Cell(t, i, "customer_id").i > 0
    ensures CellConforms(PostSales().columns[2], Cell(t, i, "product_id")) <==> Cell(t, i, "product_id").Int? && Cell(t, i, "product_id").i > 0
  {
    var s := PostSales().columns;
    CellConformsPlain(s[0], Cell(t, i, "order_id"));
    CellConformsOne(s[1], Cell(t, i, "customer_id"), Gt(0.0));
    CellConformsOne(s[2], Cell(t, i, "product_id"), Gt(0.0));
  }

  lemma PostSalesCells1(t: Frame, i: int)
    requires 0 <= i < |t.rows| && HasSalesColumns(t)
    ensures CellConforms(PostSales().columns[3], Cell(t, i, "order_date")) <==> Cell(t, i, "order_date").Date?
    ensures CellConforms(PostSales().columns[4], Cell(t, i, "amount")) <==> Cell(t, i, "amount").Real? && Cell(t, i, "amount").r >= 0.0
    ensures CellConforms(PostSales().columns[5], Cell(t, i, "quantity")) <==> Cell(t, i, "quantity").Int? && Cell(t, i, "quantity").i >= 0
  {
    var s := PostSales().columns;
    CellConformsPlain(s[3], Cell(t, i, "order_date"));
    CellConformsOne(s[4], Cell(t, i, "amount"), Ge(0.0));
    CellConformsOne(s[5], Cell(t, i, "quantity"), Ge(0.0));
  }

  lemma PostSalesCells2(t: Frame, i: int)
    requires 0 <= i < |t.rows| && HasSalesColumns(t)
    ensures CellConforms(PostSales().columns[6], Cell(t, i, "discount")) <==> Cell(t, i, "discount").Real? && 1.0 <= Cell(t, i, "discount").r <= 100.0
    ensures CellConforms(PostSales().columns[7], Cell(t, i, "profit")) <==> Cell(t, i, "profit").Real?
    ensures CellConforms(PostSales().columns[8], Cell(t, i, "total_revenue")) <==> Cell(t, i, "total_revenue").Real? && Cell(t, i, "total_revenue").r >= 0.0
  {
    var s := PostSales().columns;
    CellConformsOne(s[6], Cell(t, i, "discount"), InRange(1.0, 100.0));
    CellConformsPlain(s[7], Cell(t, i, "profit"));
    CellConformsOne(s[8], Cell(t, i, "total_revenue"), Ge(0.0));
  }

  lemma PostSalesGoodCells(t: Frame, i: int)
    requires 0 <= i < |t.rows| && HasSalesColumns(t)
    ensures var s := PostSales().columns;
      GoodSalesRow(t, i) <==>
      && CellConforms(s[0], Cell(t, i, "order_id"))
      && CellConforms(s[1], Cell(t, i, "customer_id"))
      && CellConforms(s[2], Cell(t, i, "product_id"))
      && CellConforms(s[3], Cell(t, i, "order_date"))
      && CellConforms(s[4], Cell(t, i, "amount"))
      && CellConforms(s[5], Cell(t, i, "quantity"))
      && CellConforms(s[6], Cell(t, i, "discount"))
      && CellConforms(s[7], Cell(t, i, "profit"))
      && CellConforms(s[8], Cell(t, i, "total_revenue"))
  {
    PostSalesCells0(t, i);
    PostSalesCells1(t, i);
    PostSalesCells2(t, i);
  }

  lemma PostSalesCellsOfRow(t: Frame, i: int)
    requires 0 <= i < |t.rows| && HasSalesColumns(t) && Present(PostSales(), t)
    requires RowConforms(PostSales(), t, i)
    ensures var s := PostSales().columns;
      && CellConforms(s[0], Cell(t, i, "order_id"))
      && CellConforms(s[1], Cell(t, i, "customer_id"))
      && CellConforms(s[2], Cell(t, i, "product_id"))
      && CellConforms(s[3], Cell(t, i, "order_date"))
      && CellConforms(s[4], Cell(t, i, "amount"))
      && CellConforms(s[5], Cell(t, i, "quantity"))
      && CellConforms(s[6], Cell(t, i, "discount"))
      && CellConforms(s[7], Cell(t, i, "profit"))
      && CellConforms(s[8], Cell(t, i, "total_revenue"))
  {
    var s := PostSales().columns;
    RowConformsAt(PostSales(), t, i);
    CellOfRow(PostSales(), t, i, 0);
    CellOfRow(PostSales(), t, i, 1);
    CellOfRow(PostSales(), t, i, 2);
    CellOfRow(PostSales(), t, i, 3);
    CellOfRow(PostSales(), t, i, 4);
    CellOfRow(PostSales(), t, i, 5);
    CellOfRow(PostSales(), t, i, 6);
    CellOfRow(PostSales(), t, i, 7);
    CellOfRow(PostSales(), t, i, 8);
  }

  lemma PostSalesRowOfCells(t: Frame, i: int)
    requires 0 <= i < |t.rows| && HasSalesColumns(t) && Present(PostSales(), t)
    requires var s := PostSales().columns;
      && CellConforms(s[0], Cell(t, i, "order_id"))
      && CellConforms(s[1], Cell(t, i, "customer_id"))
      && CellConforms(s[2], Cell(t, i, "product_id"))
      && CellConforms(s[3], Cell(t, i, "order_date"))
      && CellConforms(s[4], Cell(t, i, "amount"))
      && CellConforms(s[5], Cell(t, i, "quantity"))
      && CellConforms(s[6], Cell(t, i, "discount"))
      && CellConforms(s[7], Cell(t, i, "profit"))
      && CellConforms(s[8], Cell(t, i, "total_revenue"))
    ensures RowConforms(PostSales(), t, i)
  {
    var s := PostSales().columns;
    forall k | 0 <= k < |s| ensures CellConforms(s[k], Cell(t, i, s[k].name)) {
      if k == 0 {} else if k == 1 {} else if k == 2 {} else if k == 3 {} else if k == 4 {} else if k == 5 {} else if k == 6 {} else if k == 7 {} else {}
    }
    RowConformsAt(PostSales(), t, i);
  }

  /** Row i passes the schema exactly when GoodSalesRow holds of it. */
  lemma PostSalesRowSpec(t: Frame, i: int)
    requires 0 <= i < |t.rows| && HasSalesColumns(t)
    ensures Present(PostSales(), t)
    ensures RowConforms(PostSales(), t, i) <==> GoodSalesRow(t, i)
  {
    PostSalesPresent(t);
    PostSalesGoodCells(t, i);
    if RowConforms(PostSales(), t, i) {
      PostSalesCellsOfRow(t, i);
    }
    if GoodSalesRow(t, i) {
      PostSalesRowOfCells(t, i);
    }
  }

  lemma PostSalesWholeColumns(t: Frame)
    requires HasSalesColumns(t)
    ensures Present(PostSales(), t)
    ensures (forall spec :: spec in PostSales().columns ==> WholeColumnConforms(spec, Col(t, spec.name)))
      <==> Distinct(Col(t, "order_id"))
  {
    PostSalesPresent(t);
    var s := PostSales().columns;
    assert s[0] in s;
  }

  /** The post schema accepts a table exactly when all nine columns are present, every row is a good
      sales row and no two rows share an order_id. */
  lemma PostSalesSpec(t: Frame)
    ensures Conforms(PostSales(), t) <==>
      && HasSalesColumns(t)
      && (forall i :: 0 <= i < |t.rows| ==> GoodSalesRow(t, i))
      && Distinct(Col(t, "order_id"))
  {
    ConformsByRows(PostSales(), t);
    PostSalesPresent(t);
    if HasSalesColumns(t) {
      PostSalesWholeColumns(t);
      forall i | 0 <= i < |t.rows| ensures RowConforms(PostSales(), t, i) <==> GoodSalesRow(t, i) {
        PostSalesRowSpec(t, i);
      }
    }
  }

  /** A discount of 0 is rejected: the range check starts at 1. */
  lemma ZeroDiscountRejected(t: Frame, i: int)
    requires "discount" in t.columns && 0 <= i < |t.rows| && Cell(t, i, "discount") == Real(0.0)
    ensures ValidatePostSales(t) == Err(SchemaError)
  {
    var spec := PostSales().columns[6];
    assert spec in PostSales().columns;
    assert InRange(1.0, 100.0) in spec.checks;
    assert Col(t, "discount")[i] == Real(0.0);
  }
}
