/**
 * The product schemas of the exam-preparation pipeline: dtypes on input; on output a lower-case
 * category and an upper-case brand.
 */
module ExamPrepProductsSchema {
  import opened Results
  import opened Frames
  import opened Schemas
  import opened Text

  /** The four product columns with their dtypes. */
  function InputProducts(): Schema {
    Schema([
      Required("product_id", IntType, []),
      Required("category", StrType, []),
      Required("brand", StrType, []),
      Required("rating", FloatType, [])], false)
  }

  /** The cleaned product columns: category `str.islower`, brand `str.isupper`. */
  function OutputProducts(): Schema {
    Schema([
      Required("product_id", IntType, []),
      Required("category", StrType, [AllLower]),
      Required("brand", StrType, [AllUpper]),
      Required("rating", FloatType, [])], false)
  }

  /** validate_input_products_schema: the table back when it conforms; the SchemaError escapes the handler otherwise. */
  function ValidateInputProducts(t: Frame): (r: Result<Frame>)
    ensures r.Ok? <==> Conforms(InputProducts(), t)
    ensures r.Ok? ==> r.value == t
    ensures r.Err? ==> r.error == SchemaError
  {
    PreValidate(InputProducts(), t)
  }

  /** validate_output_products_schema: the table back when it conforms, SchemaError otherwise. */
  function ValidateOutputProducts(t: Frame): (r: Result<Frame>)
    ensures r.Ok? <==> Conforms(OutputProducts(), t)
    ensures r.Ok? ==> r.value == t
    ensures r.Err? ==> r.error == SchemaError
  {
    Validate(OutputProducts(), t, false)
  }

  /** All four product columns are present. */
  predicate HasProductColumns(t: Frame) {
    && "product_id" in t.columns && "category" in t.columns && "brand" in t.columns
    && "rating" in t.columns
  }

  /** One input product row with every cell of its column's dtype. */
  predicate TypedProductRow(t: Frame, i: int)
    requires 0 <= i < |t.rows| && HasProductColumns(t)
  {
    && Cell(t, i, "product_id").Int?
    && Cell(t, i, "category").Str?
    && Cell(t, i, "brand").Str?
    && Cell(t, i, "rating").Real?
  }

  lemma InputProductsPresent(t: Frame)
    ensures Present(InputProducts(), t) <==> HasProductColumns(t)
  {
    var s := InputProducts().columns;
    if Present(InputProducts(), t) {
      assert s[0] in s && s[1] in s && s[2] in s && s[3] in s;
    }
    if HasProductColumns(t) {
      forall spec | spec in s ensures spec.name in t.columns {
      }
    }
  }

  lemma InputProductsCells0(t: Frame, i: int)
    requires 0 <= i < |t.rows| && HasProductColumns(t)
    ensures CellConforms(InputProducts().columns[0], Cell(t, i, "product_id")) <==> Cell(t, i, "product_id").Int?
    ensures CellConforms(InputProducts().columns[1], Cell(t, i, "category")) <==> Cell(t, i, "category").Str?
    ensures CellConforms(InputProducts().columns[2], Cell(t, i, "brand")) <==> Cell(t, i, "brand").Str?
  {
    var s := InputProducts().columns;
    CellConformsPlain(s[0], Cell(t, i, "product_id"));
    CellConformsPlain(s[1], Cell(t, i, "category"));
    CellConformsPlain(s[2], Cell(t, i, "brand"));
  }

  lemma InputProductsCells1(t: Frame, i: int)
    requires 0 <= i < |t.rows| && HasProductColumns(t)
    ensures CellConforms(InputProducts().columns[3], Cell(t, i, "rating")) <==> Cell(t, i, "rating").Real?
  {
    var s := InputProducts().columns;
    CellConformsPlain(s[3], Cell(t, i, "rating"));
  }

  lemma InputProductsGoodCells(t: Frame, i: int)
    requires 0 <= i < |t.rows| && HasProductColumns(t)
    ensures var s := InputProducts().columns;
      TypedProductRow(t, i) <==>
      && CellConforms(s[0], Cell(t, i, "product_id"))
      && CellConforms(s[1], Cell(t, i, "category"))
      && CellConforms(s[2], Cell(t, i, "brand"))
      && CellConforms(s[3], Cell(t, i, "rating"))
  {
    InputProductsCells0(t, i);
    InputProductsCells1(t, i);
  }

  lemma InputProductsCellsOfRow(t: Frame, i: int)
    requires 0 <= i < |t.rows| && HasProductColumns(t) && Present(InputProducts(), t)
    requires RowConforms(InputProducts(), t, i)
    ensures var s := InputProducts().columns;
      && CellConforms(s[0], Cell(t, i, "product_id"))
      && CellConforms(s[1], Cell(t, i, "category"))
      && CellConforms(s[2], Cell(t, i, "brand"))
      && CellConforms(s[3], Cell(t, i, "rating"))
  {
    var s := InputProducts().columns;
    RowConformsAt(InputProducts(), t, i);
    CellOfRow(InputProducts(), t, i, 0);
    CellOfRow(InputProducts(), t, i, 1);
    CellOfRow(InputProducts(), t, i, 2);
    CellOfRow(InputProducts(), t, i, 3);
  }

  lemma InputProductsRowOfCells(t: Frame, i: int)
    requires 0 <= i < |t.rows| && HasProductColumns(t) && Present(InputProducts(), t)
    requires var s := InputProducts().columns;
      && CellConforms(s[0], Cell(t, i, "product_id"))
      && CellConforms(s[1], Cell(t, i, "category"))
      && CellConforms(s[2], Cell(t, i, "brand"))
      && CellConforms(s[3], Cell(t, i, "rating"))
    ensures RowConforms(InputProducts(), t, i)
  {
    var s := InputProducts().columns;
    forall k | 0 <= k < |s| ensures CellConforms(s[k], Cell(t, i, s[k].name)) {
      if k == 0 {} else if k == 1 {} else if k == 2 {} else {}
    }
    RowConformsAt(InputProducts(), t, i);
  }

  /** Row i passes the schema exactly when TypedProductRow holds of it. */
  lemma InputProductsRowSpec(t: Frame, i: int)
    requires 0 <= i < |t.rows| && HasProductColumns(t)
    ensures Present(InputProducts(), t)
    ensures RowConforms(InputProducts(), t, i) <==> TypedProductRow(t, i)
  {
    InputProductsPresent(t);
    InputProductsGoodCells(t, i);
    if RowConforms(InputProducts(), t, i) {
      InputProductsCellsOfRow(t, i);
    }
    if TypedProductRow(t, i) {
      InputProductsRowOfCells(t, i);
    }
  }

  lemma InputProductsWholeColumns(t: Frame)
    requires HasProductColumns(t)
    ensures Present(InputProducts(), t)
    ensures forall spec :: spec in InputProducts().columns ==> WholeColumnConforms(spec, Col(t, spec.name))
  {
    InputProductsPresent(t);
  }

  /** The input schema accepts a table exactly when the four columns are present and every cell has
      its column's dtype. */
  lemma InputProductsSpec(t: Frame)
    ensures Conforms(InputProducts(), t) <==>
      && HasProductColumns(t)
      && (forall i :: 0 <= i < |t.rows| ==> TypedProductRow(t, i))
  {
    ConformsByRows(InputProducts(), t);
    InputProductsPresent(t);
    if HasProductColumns(t) {
      InputProductsWholeColumns(t);
      forall i | 0 <= i < |t.rows| ensures RowConforms(InputProducts(), t, i) <==> TypedProductRow(t, i) {
        InputProductsRowSpec(t, i);
      }
    }
  }

  /** One cleaned product row: a lower-case category and an upper-case brand. */
  predicate GoodProductRow(t: Frame, i: int)
    requires 0 <= i < |t.rows| && HasProductColumns(t)
  {
    && Cell(t, i, "product_id").Int?
    && Cell(t, i, "category").Str? && IsLowerStr(Cell(t, i, "category").s)
    && Cell(t, i, "brand").Str? && IsUpperStr(Cell(t, i, "brand").s)
    && Cell(t, i, "rating").Real?
  }

  lemma OutputProductsPresent(t: Frame)
    ensures Present(OutputProducts(), t) <==> HasProductColumns(t)
  {
    var s := OutputProducts().columns;
    if Present(OutputProducts(), t) {
      assert s[0] in s && s[1] in s && s[2] in s && s[3] in s;
    }
    if HasProductColumns(t) {
      forall spec | spec in s ensures spec.name in t.columns {
      }
    }
  }

  lemma OutputProductsCells0(t: Frame, i: int)
    requires 0 <= i < |t.rows| && HasProductColumns(t)
    ensures CellConforms(OutputProducts().columns[0], Cell(t, i, "product_id")) <==> Cell(t, i, "product_id").Int?
    ensures CellConforms(OutputProducts().columns[1], Cell(t, i, "category")) <==> Cell(t, i, "category").Str? && IsLowerStr(Cell(t, i, "category").s)
    ensures CellConforms(OutputProducts().columns[2], Cell(t, i, "brand")) <==> Cell(t, i, "brand").Str? && IsUpperStr(Cell(t, i, "brand").s)
  {
    var s := OutputProducts().columns;
    CellConformsPlain(s[0], Cell(t, i, "product_id"));
    CellConformsOne(s[1], Cell(t, i, "category"), AllLower);
    CellConformsOne(s[2], Cell(t, i, "brand"), AllUpper);
  }

  lemma OutputProductsCells1(t: Frame, i: int)
    requires 0 <= i < |t.rows| && HasProductColumns(t)
    ensures CellConforms(OutputProducts().columns[3], Cell(t, i, "rating")) <==> Cell(t, i, "rating").Real?
  {
    var s := OutputProducts().columns;
    CellConformsPlain(s[3], Cell(t, i, "rating"));
  }

  lemma OutputProductsGoodCells(t: Frame, i: int)
    requires 0 <= i < |t.rows| && HasProductColumns(t)
    ensures var s := OutputProducts().columns;
      GoodProductRow(t, i) <==>
      && CellConforms(s[0], Cell(t, i, "product_id"))
      && CellConforms(s[1], Cell(t, i, "category"))
      && CellConforms(s[2], Cell(t, i, "brand"))
      && CellConforms(s[3], Cell(t, i, "rating"))
  {
    OutputProductsCells0(t, i);
    OutputProductsCells1(t, i);
  }

  lemma OutputProductsCellsOfRow(t: Frame, i: int)
    requires 0 <= i < |t.rows| && HasProductColumns(t) && Present(OutputProducts(), t)
    requires RowConforms(OutputProducts(), t, i)
    ensures var s := OutputProducts().columns;
      && CellConforms(s[0], Cell(t, i, "product_id"))
      && CellConforms(s[1], Cell(t, i, "category"))
      && CellConforms(s[2], Cell(t, i, "brand"))
      && CellConforms(s[3], Cell(t, i, "rating"))
  {
    var s := OutputProducts().columns;
    RowConformsAt(OutputProducts(), t, i);
    CellOfRow(OutputProducts(), t, i, 0);
    CellOfRow(OutputProducts(), t, i, 1);
    CellOfRow(OutputProducts(), t, i, 2);
    CellOfRow(OutputProducts(), t, i, 3);
  }

  lemma OutputProductsRowOfCells(t: Frame, i: int)
    requires 0 <= i < |t.rows| && HasProductColumns(t) && Present(OutputProducts(), t)
    requires var s := OutputProducts().columns;
      && CellConforms(s[0], Cell(t, i, "product_id"))
      && CellConforms(s[1], Cell(t, i, "category"))
      && CellConforms(s[2], Cell(t, i, "brand"))
      && CellConforms(s[3], Cell(t, i, "rating"))
    ensures RowConforms(OutputProducts(), t, i)
  {
    var s := OutputProducts().columns;
    forall k | 0 <= k < |s| ensures CellConforms(s[k], Cell(t, i, s[k].name)) {
      if k == 0 {} else if k == 1 {} else if k == 2 {} else {}
    }
    RowConformsAt(OutputProducts(), t, i);
  }

  /** Row i passes the schema exactly when GoodProductRow holds of it. */
  lemma OutputProductsRowSpec(t: Frame, i: int)
    requires 0 <= i < |t.rows| && HasProductColumns(t)
    ensures Present(OutputProducts(), t)
    ensures RowConforms(OutputProducts(), t, i) <==> GoodProductRow(t, i)
  {
    OutputProductsPresent(t);
    OutputProductsGoodCells(t, i);
    if RowConforms(OutputProducts(), t, i) {
      OutputProductsCellsOfRow(t, i);
    }
    if GoodProductRow(t, i) {
      OutputProductsRowOfCells(t, i);
    }
  }

  lemma OutputProductsWholeColumns(t: Frame)
    requires HasProductColumns(t)
    ensures Present(OutputProducts(), t)
    ensures forall spec :: spec in OutputProducts().columns ==> WholeColumnConforms(spec, Col(t, spec.name))
  {
    OutputProductsPresent(t);
  }

  /** The output schema accepts a table exactly when the four columns are present and every row is a
      good product row. */
  lemma OutputProductsSpec(t: Frame)
    ensures Conforms(OutputProducts(), t) <==>
      && HasProductColumns(t)
      && (forall i :: 0 <= i < |t.rows| ==> GoodProductRow(t, i))
  {
    ConformsByRows(OutputProducts(), t);
    OutputProductsPresent(t);
    if HasProductColumns(t) {
      OutputProductsWholeColumns(t);
      forall i | 0 <= i < |t.rows| ensures RowConforms(OutputProducts(), t, i) <==> GoodProductRow(t, i) {
        OutputProductsRowSpec(t, i);
      }
    }
  }
}
