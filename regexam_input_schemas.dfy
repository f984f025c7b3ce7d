/**
 * The raw input schemas of the regular-exam pipeline: the sales file's column names as they arrive
 * (spaces and mixed case), with Region and Time stamp nullable; the product file with a nullable
 * launch_date string.
 */
module RegExamInputSchemas {
  import opened Results
  import opened Frames
  import opened Schemas

  /** The eight raw sales columns. */
  function InputSales(): Schema {
    Schema([
      Required("sales id", IntType, []),
      Required("proDuct Id", IntType, []),
      ColumnSpec("Region", StrType, true, false, false, []),
      Required("qty", IntType, []),
      Required("Price", FloatType, []),
      ColumnSpec("Time stamp", StrType, true, false, false, []),
      Required("discount", FloatType, []),
      Required("order_status", StrType, [])], false)
  }

  /** The six raw product columns. */
  function InputProducts(): Schema {
    Schema([
      Required("product_id", IntType, []),
      Required("category", StrType, []),
      Required("brand", StrType, []),
      Required("rating", FloatType, []),
      Required("in_stock", BoolType, []),
      ColumnSpec("launch_date", StrType, true, false, false, [])], false)
  }

  /** All eight raw sales columns are present. */
  predicate HasRawSalesColumns(t: Frame) {
    && "sales id" in t.columns && "proDuct Id" in t.columns && "Region" in t.columns
    && "qty" in t.columns && "Price" in t.columns && "Time stamp" in t.columns
    && "discount" in t.columns && "order_status" in t.columns
  }

  /** All six raw product columns are present. */
  predicate HasRawProductColumns(t: Frame) {
    && "product_id" in t.columns && "category" in t.columns && "brand" in t.columns
    && "rating" in t.columns && "in_stock" in t.columns && "launch_date" in t.columns
  }

  /** One raw sales row: dtypes hold, Region and Time stamp may be missing. */
  predicate RawSalesRow(t: Frame, i: int)
    requires 0 <= i < |t.rows| && HasRawSalesColumns(t)
  {
    && Cell(t, i, "sales id").Int?
    && Cell(t, i, "proDuct Id").Int?
    && (Cell(t, i, "Region").Null? || Cell(t, i, "Region").Str?)
    && Cell(t, i, "qty").Int?
    && Cell(t, i, "Price").Real?
    && (Cell(t, i, "Time stamp").Null? || Cell(t, i, "Time stamp").Str?)
    && Cell(t, i, "discount").Real?
    && Cell(t, i, "order_status").Str?
  }

  lemma InputSalesPresent(t: Frame)
    ensures Present(InputSales(), t) <==> HasRawSalesColumns(t)
  {
    var s := InputSales().columns;
    if Present(InputSales(), t) {
      assert s[0] in s && s[1] in s && s[2] in s && s[3] in s && s[4] in s && s[5] in s && s[6] in s && s[7] in s;
    }
    if HasRawSalesColumns(t) {
      forall spec | spec in s ensures spec.name in t.columns {
      }
    }
  }

  lemma InputSalesCells0(t: Frame, i: int)
    requires 0 <= i < |t.rows| && HasRawSalesColumns(t)
    ensures CellConforms(InputSales().columns[0], Cell(t, i, "sales id")) <==> Cell(t, i, "sales id").Int?
    ensures CellConforms(InputSales().columns[1], Cell(t, i, "proDuct Id")) <==> Cell(t, i, "proDuct Id").Int?
    ensures CellConforms(InputSales().columns[2], Cell(t, i, "Region")) <==> (Cell(t, i, "Region").Null? || Cell(t, i, "Region").Str?)
  {
    var s := InputSales().columns;
    CellConformsPlain(s[0], Cell(t, i, "sales id"));
    CellConformsPlain(s[1], Cell(t, i, "proDuct Id"));
    CellConformsPlain(s[2], Cell(t, i, "Region"));
  }

  lemma InputSalesCells1(t: Frame, i: int)
    requires 0 <= i < |t.rows| && HasRawSalesColumns(t)
    ensures CellConforms(InputSales().columns[3], Cell(t, i, "qty")) <==> Cell(t, i, "qty").Int?
    ensures CellConforms(InputSales().columns[4], Cell(t, i, "Price")) <==> Cell(t, i, "Price").Real?
    ensures CellConforms(InputSales().columns[5], Cell(t, i, "Time stamp")) <==> (Cell(t, i, "Time stamp").Null? || Cell(t, i, "Time stamp").Str?)
  {
    var s := InputSales().columns;
    CellConformsPlain(s[3], Cell(t, i, "qty"));
    CellConformsPlain(s[4], Cell(t, i, "Price"));
    CellConformsPlain(s[5], Cell(t, i, "Time stamp"));
  }

  lemma InputSalesCells2(t: Frame, i: int)
    requires 0 <= i < |t.rows| && HasRawSalesColumns(t)
    ensures CellConforms(InputSales().columns[6], Cell(t, i, "discount")) <==> Cell(t, i, "discount").Real?
    ensures CellConforms(InputSales().columns[7], Cell(t, i, "order_status")) <==> Cell(t, i, "order_status").Str?
  {
    var s := InputSales().columns;
    CellConformsPlain(s[6], Cell(t, i, "discount"));
    CellConformsPlain(s[7], Cell(t, i, "order_status"));
  }

  lemma InputSalesGoodCells(t: Frame, i: int)
    requires 0 <= i < |t.rows| && HasRawSalesColumns(t)
    ensures var s := InputSales().columns;
      RawSalesRow(t, i) <==>
      && CellConforms(s[0], Cell(t, i, "sales id"))
      && CellConforms(s[1], Cell(t, i, "proDuct Id"))
      && CellConforms(s[2], Cell(t, i, "Region"))
      && CellConforms(s[3], Cell(t, i, "qty"))
      && CellConforms(s[4], Cell(t, i, "Price"))
      && CellConforms(s[5], Cell(t, i, "Time stamp"))
      && CellConforms(s[6], Cell(t, i, "discount"))
      && CellConforms(s[7], Cell(t, i, "order_status"))
  {
    InputSalesCells0(t, i);
    InputSalesCells1(t, i);
    InputSalesCells2(t, i);
  }

  lemma InputSalesCellsOfRow(t: Frame, i: int)
    requires 0 <= i < |t.rows| && HasRawSalesColumns(t) && Present(InputSales(), t)
    requires RowConforms(InputSales(), t, i)
    ensures var s := InputSales().columns;
      && CellConforms(s[0], Cell(t, i, "sales id"))
      && CellConforms(s[1], Cell(t, i, "proDuct Id"))
      && CellConforms(s[2], Cell(t, i, "Region"))
      && CellConforms(s[3], Cell(t, i, "qty"))
      && CellConforms(s[4], Cell(t, i, "Price"))
      && CellConforms(s[5], Cell(t, i, "Time stamp"))
      && CellConforms(s[6], Cell(t, i, "discount"))
      && CellConforms(s[7], Cell(t, i, "order_status"))
  {
    var s := InputSales().columns;
    RowConformsAt(InputSales(), t, i);
    CellOfRow(InputSales(), t, i, 0);
    CellOfRow(InputSales(), t, i, 1);
    CellOfRow(InputSales(), t, i, 2);
    CellOfRow(InputSales(), t, i, 3);
    CellOfRow(InputSales(), t, i, 4);
    CellOfRow(InputSales(), t, i, 5);
    CellOfRow(InputSales(), t, i, 6);
    CellOfRow(InputSales(), t, i, 7);
  }

  lemma InputSalesRowOfCells(t: Frame, i: int)
    requires 0 <= i < |t.rows| && HasRawSalesColumns(t) && Present(InputSales(), t)
    requires var s := InputSales().columns;
      && CellConforms(s[0], Cell(t, i, "sales id"))
      && CellConforms(s[1], Cell(t, i, "proDuct Id"))
      && CellConforms(s[2], Cell(t, i, "Region"))
      && CellConforms(s[3], Cell(t, i, "qty"))
      && CellConforms(s[4], Cell(t, i, "Price"))
      && CellConforms(s[5], Cell(t, i, "Time stamp"))
      && CellConforms(s[6], Cell(t, i, "discount"))
      && CellConforms(s[7], Cell(t, i, "order_status"))
    ensures RowConforms(InputSales(), t, i)
  {
    var s := InputSales().columns;
    forall k | 0 <= k < |s| ensures CellConforms(s[k], Cell(t, i, s[k].name)) {
      if k == 0 {} else if k == 1 {} else if k == 2 {} else if k == 3 {} else if k == 4 {} else if k == 5 {} else if k == 6 {} else {}
    }
    RowConformsAt(InputSales(), t, i);
  }

  /** Row i passes the schema exactly when RawSalesRow holds of it. */
  lemma InputSalesRowSpec(t: Frame, i: int)
    requires 0 <= i < |t.rows| && HasRawSalesColumns(t)
    ensures Present(InputSales(), t)
    ensures RowConforms(InputSales(), t, i) <==> RawSalesRow(t, i)
  {
    InputSalesPresent(t);
    InputSalesGoodCells(t, i);
    if RowConforms(InputSales(), t, i) {
      InputSalesCellsOfRow(t, i);
    }
    if RawSalesRow(t, i) {
      InputSalesRowOfCells(t, i);
    }
  }

  lemma InputSalesWholeColumns(t: Frame)
    requires HasRawSalesColumns(t)
    ensures Present(InputSales(), t)
    ensures forall spec :: spec in InputSales().columns ==> WholeColumnConforms(spec, Col(t, spec.name))
  {
    InputSalesPresent(t);
  }

  /** The raw sales schema accepts a table exactly when the eight columns are present and every row is
      a raw sales row. */
  lemma InputSalesSpec(t: Frame)
    ensures Conforms(InputSales(), t) <==>
      && HasRawSalesColumns(t)
      && (forall i :: 0 <= i < |t.rows| ==> RawSalesRow(t, i))
  {
    ConformsByRows(InputSales(), t);
    InputSalesPresent(t);
    if HasRawSalesColumns(t) {
      InputSalesWholeColumns(t);
      forall i | 0 <= i < |t.rows| ensures RowConforms(InputSales(), t, i) <==> RawSalesRow(t, i) {
        InputSalesRowSpec(t, i);
      }
    }
  }

  /** One raw product row: dtypes hold, launch_date may be missing. */
  predicate RawProductRow(t: Frame, i: int)
    requires 0 <= i < |t.rows| && HasRawProductColumns(t)
  {
    && Cell(t, i, "product_id").Int?
    && Cell(t, i, "category").Str?
    && Cell(t, i, "brand").Str?
    && Cell(t, i, "rating").Real?
    && Cell(t, i, "in_stock").Bool?
    && (Cell(t, i, "launch_date").Null? || Cell(t, i, "launch_date").Str?)
  }

  lemma InputProductsPresent(t: Frame)
    ensures Present(InputProducts(), t) <==> HasRawProductColumns(t)
  {
    var s := InputProducts().columns;
    if Present(InputProducts(), t) {
      assert s[0] in s && s[1] in s && s[2] in s && s[3] in s && s[4] in s && s[5] in s;
    }
    if HasRawProductColumns(t) {
      forall spec | spec in s ensures spec.name in t.columns {
      }
    }
  }

  lemma InputProductsCells0(t: Frame, i: int)
    requires 0 <= i < |t.rows| && HasRawProductColumns(t)
    ensures CellConforms(InputProducts().columns[0], Cell(t, i, "product_id")) <==> Cell(t, i, "product_id").Int?
    ensures CellConforms(InputProducts().columns[1], Cell(t, i, "category")) <==> Cell(t, i, "category").Str?
    ensures CellConforms(InputProducts().columns[2], Cell(t, i, "brand")) <==> Cell(t, i, "brand").Str?
  {
    var s := InputProducts().columns;
    CellConformsPlain(s[0], Cell(t, i, "product_id"));
    CellConformsPlain(s[1], Cell(t, i, "category"));
    CellConformsPlain(s[2], Cell(t, i, "brand"));
  }

  lemma InputProductsCells1(t: Frame, i: int)
    requires 0 <= i < |t.rows| && HasRawProductColumns(t)
    ensures CellConforms(InputProducts().columns[3], Cell(t, i, "rating")) <==> Cell(t, i, "rating").Real?
    ensures CellConforms(InputProducts().columns[4], Cell(t, i, "in_stock")) <==> Cell(t, i, "in_stock").Bool?
    ensures CellConforms(InputProducts().columns[5], Cell(t, i, "launch_date")) <==> (Cell(t, i, "launch_date").Null? || Cell(t, i, "launch_date").Str?)
  {
    var s := InputProducts().columns;
    CellConformsPlain(s[3], Cell(t, i, "rating"));
    CellConformsPlain(s[4], Cell(t, i, "in_stock"));
    CellConformsPlain(s[5], Cell(t, i, "launch_date"));
  }

  lemma InputProductsGoodCells(t: Frame, i: int)
    requires 0 <= i < |t.rows| && HasRawProductColumns(t)
    ensures var s := InputProducts().columns;
      RawProductRow(t, i) <==>
      && CellConforms(s[0], Cell(t, i, "product_id"))
      && CellConforms(s[1], Cell(t, i, "category"))
      && CellConforms(s[2], Cell(t, i, "brand"))
      && CellConforms(s[3], Cell(t, i, "rating"))
      && CellConforms(s[4], Cell(t, i, "in_stock"))
      && CellConforms(s[5], Cell(t, i, "launch_date"))
  {
    InputProductsCells0(t, i);
    InputProductsCells1(t, i);
  }

  lemma InputProductsCellsOfRow(t: Frame, i: int)
    requires 0 <= i < |t.rows| && HasRawProductColumns(t) && Present(InputProducts(), t)
    requires RowConforms(InputProducts(), t, i)
    ensures var s := InputProducts().columns;
      && CellConforms(s[0], Cell(t, i, "product_id"))
      && CellConforms(s[1], Cell(t, i, "category"))
      && CellConforms(s[2], Cell(t, i, "brand"))
      && CellConforms(s[3], Cell(t, i, "rating"))
      && CellConforms(s[4], Cell(t, i, "in_stock"))
      && CellConforms(s[5], Cell(t, i, "launch_date"))
  {
    var s := InputProducts().columns;
    RowConformsAt(InputProducts(), t, i);
    CellOfRow(InputProducts(), t, i, 0);
    CellOfRow(InputProducts(), t, i, 1);
    CellOfRow(InputProducts(), t, i, 2);
    CellOfRow(InputProducts(), t, i, 3);
    CellOfRow(InputProducts(), t, i, 4);
    CellOfRow(InputProducts(), t, i, 5);
  }

  lemma InputProductsRowOfCells(t: Frame, i: int)
    requires 0 <= i < |t.rows| && HasRawProductColumns(t) && Present(InputProducts(), t)
    requires var s := InputProducts().columns;
      && CellConforms(s[0], Cell(t, i, "product_id"))
      && CellConforms(s[1], Cell(t, i, "category"))
      && CellConforms(s[2], Cell(t, i, "brand"))
      && CellConforms(s[3], Cell(t, i, "rating"))
      && CellConforms(s[4], Cell(t, i, "in_stock"))
      && CellConforms(s[5], Cell(t, i, "launch_date"))
    ensures RowConforms(InputProducts(), t, i)
  {
    var s := InputProducts().columns;
    forall k | 0 <= k < |s| ensures CellConforms(s[k], Cell(t, i, s[k].name)) {
      if k == 0 {} else if k == 1 {} else if k == 2 {} else if k == 3 {} else if k == 4 {} else {}
    }
    RowConformsAt(InputProducts(), t, i);
  }

  /** Row i passes the schema exactly when RawProductRow holds of it. */
  lemma InputProductsRowSpec(t: Frame, i: int)
    requires 0 <= i < |t.rows| && HasRawProductColumns(t)
    ensures Present(InputProducts(), t)
    ensures RowConforms(InputProducts(), t, i) <==> RawProductRow(t, i)
  {
    InputProductsPresent(t);
    InputProductsGoodCells(t, i);
    if RowConforms(InputProducts(), t, i) {
      InputProductsCellsOfRow(t, i);
    }
    if RawProductRow(t, i) {
      InputProductsRowOfCells(t, i);
    }
  }

  lemma InputProductsWholeColumns(t: Frame)
    requires HasRawProductColumns(t)
    ensures Present(InputProducts(), t)
    ensures forall spec :: spec in InputProducts().columns ==> WholeColumnConforms(spec, Col(t, spec.name))
  {
    InputProductsPresent(t);
  }

  /** The raw product schema accepts a table exactly when the six columns are present and every row is
      a raw product row. */
  lemma InputProductsSpec(t: Frame)
    ensures Conforms(InputProducts(), t) <==>
      && HasRawProductColumns(t)
      && (forall i :: 0 <= i < |t.rows| ==> RawProductRow(t, i))
  {
    ConformsByRows(InputProducts(), t);
    InputProductsPresent(t);
    if HasRawProductColumns(t) {
      InputProductsWholeColumns(t);
      forall i | 0 <= i < |t.rows| ensures RowConforms(InputProducts(), t, i) <==> RawProductRow(t, i) {
        InputProductsRowSpec(t, i);
      }
    }
  }
}
