/**
 * The product schemas of the Airflow exercise pipeline. The post schema's `str_length(100)` on name
 * sets a minimum length of 100 (the first argument of str_length is the minimum); the intended schema
 * bounds the name to at most 100 characters, as the customer schema does.
 */
module AirflowProductsSchema {
  import opened Results
  import opened Frames
  import opened Schemas

  /** The raw product columns and their dtypes; product_id unique. */
  function PreProducts(): Schema {
    Schema([
      ColumnSpec("product_id", IntType, false, true, false, []),
      Required("name", StrType, []),
      Required("category", StrType, []),
      Required("price", FloatType, [])], false)
  }

  /** The cleaned product columns as written: name must be at least 100 characters long. */
  function PostProducts(): Schema {
    Schema([
      ColumnSpec("product_id", IntType, false, true, false, [Gt(0.0)]),
      Required("name", StrType, [StrLength(Some(100), None)]),
      Required("category", StrType, []),
      Required("price", FloatType, [Ge(0.0)])], false)
  }

  /** The cleaned product columns as intended: name at most 100 characters long. */
  function IntendedPostProducts(): Schema {
    Schema([
      ColumnSpec("product_id", IntType, false, true, false, [Gt(0.0)]),
      Required("name", StrType, [StrLength(Some(0), Some(100))]),
      Required("category", StrType, []),
      Required("price", FloatType, [Ge(0.0)])], false)
  }

  /** validate_pre_products_schema: the table back when it conforms; the SchemaError escapes the handler otherwise. */
  function ValidatePreProducts(t: Frame): (r: Result<Frame>)
    ensures r.Ok? <==> Conforms(PreProducts(), t)
    ensures r.Ok? ==> r.value == t
    ensures r.Err? ==> r.error == SchemaError
  {
    PreValidate(PreProducts(), t)
  }

  /** validate_post_products_schema as written. */
  function ValidatePostProducts(t: Frame): (r: Result<Frame>)
    ensures r.Ok? <==> Conforms(PostProducts(), t)
    ensures r.Ok? ==> r.value == t
    ensures r.Err? ==> r.error == SchemaError
  {
    Validate(PostProducts(), t, false)
  }

  /** validate_post_products_schema with the name bound the schema evidently means. */
  function ValidateIntendedPostProducts(t: Frame): (r: Result<Frame>)
    ensures r.Ok? <==> Conforms(IntendedPostProducts(), t)
    ensures r.Ok? ==> r.value == t
    ensures r.Err? ==> r.error == SchemaError
  {
    Validate(IntendedPostProducts(), t, false)
  }

  /** All four product columns are present. */
  predicate HasProductColumns(t: Frame) {
    && "product_id" in t.columns && "name" in t.columns && "category" in t.columns
    && "price" in t.columns
  }

  /** One raw product row with every cell of its column's dtype. */
  predicate TypedProductRow(t: Frame, i: int)
    requires 0 <= i < |t.rows| && HasProductColumns(t)
  {
    && Cell(t, i, "product_id").Int?
    && Cell(t, i, "name").Str?
    && Cell(t, i, "category").Str?
    && Cell(t, i, "price").Real?
  }

  lemma PreProductsPresent(t: Frame)
    ensures Present(PreProducts(), t) <==> HasProductColumns(t)
  {
    var s := PreProducts().columns;
    if Present(PreProducts(), t) {
      assert s[0] in s && s[1] in s && s[2] in s && s[3] in s;
    }
    if HasProductColumns(t) {
      forall spec | spec in s ensures spec.name in t.columns {
      }
    }
  }

  lemma PreProductsCells0(t: Frame, i: int)
    requires 0 <= i < |t.rows| && HasProductColumns(t)
    ensures CellConforms(PreProducts().columns[0], Cell(t, i, "product_id")) <==> Cell(t, i, "product_id").Int?
    ensures CellConforms(PreProducts().columns[1], Cell(t, i, "name")) <==> Cell(t, i, "name").Str?
    ensures CellConforms(PreProducts().columns[2], Cell(t, i, "category")) <==> Cell(t, i, "category").Str?
  {
    var s := PreProducts().columns;
    CellConformsPlain(s[0], Cell(t, i, "product_id"));
    CellConformsPlain(s[1], Cell(t, i, "name"));
    CellConformsPlain(s[2], Cell(t, i, "category"));
  }

  lemma PreProductsCells1(t: Frame, i: int)
    requires 0 <= i < |t.rows| && HasProductColumns(t)
    ensures CellConforms(PreProducts().columns[3], Cell(t, i, "price")) <==> Cell(t, i, "price").Real?
  {
    var s := PreProducts().columns;
    CellConformsPlain(s[3], Cell(t, i, "price"));
  }

  lemma PreProductsGoodCells(t: Frame, i: int)
    requires 0 <= i < |t.rows| && HasProductColumns(t)
    ensures var s := PreProducts().columns;
      TypedProductRow(t, i) <==>
      && CellConforms(s[0], Cell(t, i, "product_id"))
      && CellConforms(s[1], Cell(t, i, "name"))
      && CellConforms(s[2], Cell(t, i, "category"))
      && CellConforms(s[3], Cell(t, i, "price"))
  {
    PreProductsCells0(t, i);
    PreProductsCells1(t, i);
  }

  lemma PreProductsCellsOfRow(t: Frame, i: int)
    requires 0 <= i < |t.rows| && HasProductColumns(t) && Present(PreProducts(), t)
    requires RowConforms(PreProducts(), t, i)
    ensures var s := PreProducts().columns;
      && CellConforms(s[0], Cell(t, i, "product_id"))
      && CellConforms(s[1], Cell(t, i, "name"))
      && CellConforms(s[2], Cell(t, i, "category"))
      && CellConforms(s[3], Cell(t, i, "price"))
  {
    var s := PreProducts().columns;
    RowConformsAt(PreProducts(), t, i);
    CellOfRow(PreProducts(), t, i, 0);
    CellOfRow(PreProducts(), t, i, 1);
    CellOfRow(PreProducts(), t, i, 2);
    CellOfRow(PreProducts(), t, i, 3);
  }

  lemma PreProductsRowOfCells(t: Frame, i: int)
    requires 0 <= i < |t.rows| && HasProductColumns(t) && Present(PreProducts(), t)
    requires var s := PreProducts().columns;
      && CellConforms(s[0], Cell(t, i, "product_id"))
      && CellConforms(s[1], Cell(t, i, "name"))
      && CellConforms(s[2], Cell(t, i, "category"))
      && CellConforms(s[3], Cell(t, i, "price"))
    ensures RowConforms(PreProducts(), t, i)
  {
    var s := PreProducts().columns;
    forall k | 0 <= k < |s| ensures CellConforms(s[k], Cell(t, i, s[k].name)) {
      if k == 0 {} else if k == 1 {} else if k == 2 {} else {}
    }
    RowConformsAt(PreProducts(), t, i);
  }

  /** Row i passes the schema exactly when TypedProductRow holds of it. */
  lemma PreProductsRowSpec(t: Frame, i: int)
    requires 0 <= i < |t.rows| && HasProductColumns(t)
    ensures Present(PreProducts(), t)
    ensures RowConforms(PreProducts(), t, i) <==> TypedProductRow(t, i)
  {
    PreProductsPresent(t);
    PreProductsGoodCells(t, i);
    if RowConforms(PreProducts(), t, i) {
      PreProductsCellsOfRow(t, i);
    }
    if TypedProductRow(t, i) {
      PreProductsRowOfCells(t, i);
    }
  }

  lemma PreProductsWholeColumns(t: Frame)
    requires HasProductColumns(t)
    ensures Present(PreProducts(), t)
    ensures (forall spec :: spec in PreProducts().columns ==> WholeColumnConforms(spec, Col(t, spec.name)))
      <==> Distinct(Col(t, "product_id"))
  {
    PreProductsPresent(t);
    var s := PreProducts().columns;
    assert s[0] in s;
  }

  /** The pre schema accepts a table exactly when the four columns are present, every cell has its
      column's dtype and product_id is unique. */
  lemma PreProductsSpec(t: Frame)
    ensures Conforms(PreProducts(), t) <==>
      && HasProductColumns(t)
      && (forall i :: 0 <= i < |t.rows| ==> TypedProductRow(t, i))
      && Distinct(Col(t, "product_id"))
  {
    ConformsByRows(PreProducts(), t);
    PreProductsPresent(t);
    if HasProductColumns(t) {
      PreProductsWholeColumns(t);
      forall i | 0 <= i < |t.rows| ensures RowConforms(PreProducts(), t, i) <==> TypedProductRow(t, i) {
        PreProductsRowSpec(t, i);
      }
    }
  }

  /** One cleaned product row as the written schema wants it: a name of 100 characters or more. */
  predicate GoodProductRow(t: Frame, i: int)
    requires 0 <= i < |t.rows| && HasProductColumns(t)
  {
    && Cell(t, i, "product_id").Int? && Cell(t, i, "product_id").i > 0
    && Cell(t, i, "name").Str? && |Cell(t, i, "name").s| >= 100
    && Cell(t, i, "category").Str?
    && Cell(t, i, "price").Real? && Cell(t, i, "price").r >= 0.0
  }

  lemma PostProductsPresent(t: Frame)
    ensures Present(PostProducts(), t) <==> HasProductColumns(t)
  {
    var s := PostProducts().columns;
    if Present(PostProducts(), t) {
      assert s[0] in s && s[1] in s && s[2] in s && s[3] in s;
    }
    if HasProductColumns(t) {
      forall spec | spec in s ensures spec.name in t.columns {
      }
    }
  }

  lemma PostProductsCells0(t: Frame, i: int)
    requires 0 <= i < |t.rows| && HasProductColumns(t)
    ensures CellConforms(PostProducts().columns[0], Cell(t, i, "product_id")) <==> Cell(t, i, "product_id").Int? && Cell(t, i, "product_id").i > 0
    ensures CellConforms(PostProducts().columns[1], Cell(t, i, "name")) <==> Cell(t, i, "name").Str? && |Cell(t, i, "name").s| >= 100
    ensures CellConforms(PostProducts().columns[2], Cell(t, i, "category")) <==> Cell(t, i, "category").Str?
  {
    var s := PostProducts().columns;
    CellConformsOne(s[0], Cell(t, i, "product_id"), Gt(0.0));
    CellConformsOne(s[1], Cell(t, i, "name"), StrLength(Some(100), None));
    CellConformsPlain(s[2], Cell(t, i, "category"));
  }

  lemma PostProductsCells1(t: Frame, i: int)
    requires 0 <= i < |t.rows| && HasProductColumns(t)
    ensures CellConforms(PostProducts().columns[3], Cell(t, i, "price")) <==> Cell(t, i, "price").Real? && Cell(t, i, "price").r >= 0.0
  {
    var s := PostProducts().columns;
    CellConformsOne(s[3], Cell(t, i, "price"), Ge(0.0));
  }

  lemma PostProductsGoodCells(t: Frame, i: int)
    requires 0 <= i < |t.rows| && HasProductColumns(t)
    ensures var s := PostProducts().columns;
      GoodProductRow(t, i) <==>
      && CellConforms(s[0], Cell(t, i, "product_id"))
      && CellConforms(s[1], Cell(t, i, "name"))
      && CellConforms(s[2], Cell(t, i, "category"))
      && CellConforms(s[3], Cell(t, i, "price"))
  {
    PostProductsCells0(t, i);
    PostProductsCells1(t, i);
  }

  lemma PostProductsCellsOfRow(t: Frame, i: int)
    requires 0 <= i < |t.rows| && HasProductColumns(t) && Present(PostProducts(), t)
    requires RowConforms(PostProducts(), t, i)
    ensures var s := PostProducts().columns;
      && CellConforms(s[0], Cell(t, i, "product_id"))
      && CellConforms(s[1], Cell(t, i, "name"))
      && CellConforms(s[2], Cell(t, i, "category"))
      && CellConforms(s[3], Cell(t, i, "price"))
  {
    var s := PostProducts().columns;
    RowConformsAt(PostProducts(), t, i);
    CellOfRow(PostProducts(), t, i, 0);
    CellOfRow(PostProducts(), t, i, 1);
    CellOfRow(PostProducts(), t, i, 2);
    CellOfRow(PostProducts(), t, i, 3);
  }

  lemma PostProductsRowOfCells(t: Frame, i: int)
    requires 0 <= i < |t.rows| && HasProductColumns(t) && Present(PostProducts(), t)
    requires var s := PostProducts().columns;
      && CellConforms(s[0], Cell(t, i, "product_id"))
      && CellConforms(s[1], Cell(t, i, "name"))
      && CellConforms(s[2], Cell(t, i, "category"))
      && CellConforms(s[3], Cell(t, i, "price"))
    ensures RowConforms(PostProducts(), t, i)
  {
    var s := PostProducts().columns;
    forall k | 0 <= k < |s| ensures CellConforms(s[k], Cell(t, i, s[k].name)) {
      if k == 0 {} else if k == 1 {} else if k == 2 {} else {}
    }
    RowConformsAt(PostProducts(), t, i);
  }

  /** Row i passes the schema exactly when GoodProductRow holds of it. */
  lemma PostProductsRowSpec(t: Frame, i: int)
    requires 0 <= i < |t.rows| && HasProductColumns(t)
    ensures Present(PostProducts(), t)
    ensures RowConforms(PostProducts(), t, i) <==> GoodProductRow(t, i)
  {
    PostProductsPresent(t);
    PostProductsGoodCells(t, i);
    if RowConforms(PostProducts(), t, i) {
      PostProductsCellsOfRow(t, i);
    }
    if GoodProductRow(t, i) {
      PostProductsRowOfCells(t, i);
    }
  }

  lemma PostProductsWholeColumns(t: Frame)
    requires HasProductColumns(t)
    ensures Present(PostProducts(), t)
    ensures (forall spec :: spec in PostProducts().columns ==> WholeColumnConforms(spec, Col(t, spec.name)))
      <==> Distinct(Col(t, "product_id"))
  {
    PostProductsPresent(t);
    var s := PostProducts().columns;
    assert s[0] in s;
  }

  /** The written post schema accepts a table exactly when the four columns are present, every row
      has a positive id, a name of at least 100 characters and a non-negative price, and product_id is unique. */
  lemma PostProductsSpec(t: Frame)
    ensures Conforms(PostProducts(), t) <==>
      && HasProductColumns(t)
      && (forall i :: 0 <= i < |t.rows| ==> GoodProductRow(t, i))
      && Distinct(Col(t, "product_id"))
  {
    ConformsByRows(PostProducts(), t);
    PostProductsPresent(t);
    if HasProductColumns(t) {
      PostProductsWholeColumns(t);
      forall i | 0 <= i < |t.rows| ensures RowConforms(PostProducts(), t, i) <==> GoodProductRow(t, i) {
        PostProductsRowSpec(t, i);
      }
    }
  }

  /** One cleaned product row as intended: a name of at most 100 characters. */
  predicate IntendedProductRow(t: Frame, i: int)
    requires 0 <= i < |t.rows| && HasProductColumns(t)
  {
    && Cell(t, i, "product_id").Int? && Cell(t, i, "product_id").i > 0
    && Cell(t, i, "name").Str? && 0 <= |Cell(t, i, "name").s| <= 100
    && Cell(t, i, "category").Str?
    && Cell(t, i, "price").Real? && Cell(t, i, "price").r >= 0.0
  }

  lemma IntendedPostProductsPresent(t: Frame)
    ensures Present(IntendedPostProducts(), t) <==> HasProductColumns(t)
  {
    var s := IntendedPostProducts().columns;
    if Present(IntendedPostProducts(), t) {
      assert s[0] in s && s[1] in s && s[2] in s && s[3] in s;
    }
    if HasProductColumns(t) {
      forall spec | spec in s ensures spec.name in t.columns {
      }
    }
  }

  lemma IntendedPostProductsCells0(t: Frame, i: int)
    requires 0 <= i < |t.rows| && HasProductColumns(t)
    ensures CellConforms(IntendedPostProducts().columns[0], Cell(t, i, "product_id")) <==> Cell(t, i, "product_id").Int? && Cell(t, i, "product_id").i > 0
    ensures CellConforms(IntendedPostProducts().columns[1], Cell(t, i, "name")) <==> Cell(t, i, "name").Str? && 0 <= |Cell(t, i, "name").s| <= 100
    ensures CellConforms(IntendedPostProducts().columns[2], Cell(t, i, "category")) <==> Cell(t, i, "category").Str?
  {
    var s := IntendedPostProducts().columns;
    CellConformsOne(s[0], Cell(t, i, "product_id"), Gt(0.0));
    CellConformsOne(s[1], Cell(t, i, "name"), StrLength(Some(0), Some(100)));
    CellConformsPlain(s[2], Cell(t, i, "category"));
  }

  lemma IntendedPostProductsCells1(t: Frame, i: int)
    requires 0 <= i < |t.rows| && HasProductColumns(t)
    ensures CellConforms(IntendedPostProducts().columns[3], Cell(t, i, "price")) <==> Cell(t, i, "price").Real? && Cell(t, i, "price").r >= 0.0
  {
    var s := IntendedPostProducts().columns;
    CellConformsOne(s[3], Cell(t, i, "price"), Ge(0.0));
  }

  lemma IntendedPostProductsGoodCells(t: Frame, i: int)
    requires 0 <= i < |t.rows| && HasProductColumns(t)
    ensures var s := IntendedPostProducts().columns;
      IntendedProductRow(t, i) <==>
      && CellConforms(s[0], Cell(t, i, "product_id"))
      && CellConforms(s[1], Cell(t, i, "name"))
      && CellConforms(s[2], Cell(t, i, "category"))
      && CellConforms(s[3], Cell(t, i, "price"))
  {
    IntendedPostProductsCells0(t, i);
    IntendedPostProductsCells1(t, i);
  }

  lemma IntendedPostProductsCellsOfRow(t: Frame, i: int)
    requires 0 <= i < |t.rows| && HasProductColumns(t) && Present(IntendedPostProducts(), t)
    requires RowConforms(IntendedPostProducts(), t, i)
    ensures var s := IntendedPostProducts().columns;
      && CellConforms(s[0], Cell(t, i, "product_id"))
      && CellConforms(s[1], Cell(t, i, "name"))
      && CellConforms(s[2], Cell(t, i, "category"))
      && CellConforms(s[3], Cell(t, i, "price"))
  {
    var s := IntendedPostProducts().columns;
    RowConformsAt(IntendedPostProducts(), t, i);
    CellOfRow(IntendedPostProducts(), t, i, 0);
    CellOfRow(IntendedPostProducts(), t, i, 1);
    CellOfRow(IntendedPostProducts(), t, i, 2);
    CellOfRow(IntendedPostProducts(), t, i, 3);
  }

  lemma IntendedPostProductsRowOfCells(t: Frame, i: int)
    requires 0 <= i < |t.rows| && HasProductColumns(t) && Present(IntendedPostProducts(), t)
    requires var s := IntendedPostProducts().columns;
      && CellConforms(s[0], Cell(t, i, "product_id"))
      && CellConforms(s[1], Cell(t, i, "name"))
      && CellConforms(s[2], Cell(t, i, "category"))
      && CellConforms(s[3], Cell(t, i, "price"))
    ensures RowConforms(IntendedPostProducts(), t, i)
  {
    var s := IntendedPostProducts().columns;
    forall k | 0 <= k < |s| ensures CellConforms(s[k], Cell(t, i, s[k].name)) {
      if k == 0 {} else if k == 1 {} else if k == 2 {} else {}
    }
    RowConformsAt(IntendedPostProducts(), t, i);
  }

  /** Row i passes the schema exactly when IntendedProductRow holds of it. */
  lemma IntendedPostProductsRowSpec(t: Frame, i: int)
    requires 0 <= i < |t.rows| && HasProductColumns(t)
    ensures Present(IntendedPostProducts(), t)
    ensures RowConforms(IntendedPostProducts(), t, i) <==> IntendedProductRow(t, i)
  {
    IntendedPostProductsPresent(t);
    IntendedPostProductsGoodCells(t, i);
    if RowConforms(IntendedPostProducts(), t, i) {
      IntendedPostProductsCellsOfRow(t, i);
    }
    if IntendedProductRow(t, i) {
      IntendedPostProductsRowOfCells(t, i);
    }
  }

  lemma IntendedPostProductsWholeColumns(t: Frame)
    requires HasProductColumns(t)
    ensures Present(IntendedPostProducts(), t)
    ensures (forall spec :: spec in IntendedPostProducts().columns ==> WholeColumnConforms(spec, Col(t, spec.name)))
      <==> Distinct(Col(t, "product_id"))
  {
    IntendedPostProductsPresent(t);
    var s := IntendedPostProducts().columns;
    assert s[0] in s;
  }

  /** The intended post schema accepts a table exactly when the four columns are present, every row
      has a positive id, a name of at most 100 characters and a non-negative price, and product_id is unique. */
  lemma IntendedPostProductsSpec(t: Frame)
    ensures Conforms(IntendedPostProducts(), t) <==>
      && HasProductColumns(t)
      && (forall i :: 0 <= i < |t.rows| ==> IntendedProductRow(t, i))
      && Distinct(Col(t, "product_id"))
  {
    ConformsByRows(IntendedPostProducts(), t);
    IntendedPostProductsPresent(t);
    if HasProductColumns(t) {
      IntendedPostProductsWholeColumns(t);
      forall i | 0 <= i < |t.rows| ensures RowConforms(IntendedPostProducts(), t, i) <==> IntendedProductRow(t, i) {
        IntendedPostProductsRowSpec(t, i);
      }
    }
  }

  /** One product, "Pen", priced 1.0. */
  function PenTable(): Frame {
    Table(["product_id", "name", "category", "price"], [0], [[Int(1), Str("Pen"), Str("office"), Real(1.0)]])
  }

  /** The written post schema rejects an ordinary product whose name is shorter than 100 characters. */
  lemma ShortNameRejected()
    ensures ValidatePostProducts(PenTable()) == Err(SchemaError)
  {
    var t := PenTable();
    FirstOccurrence(t.columns, "name", 1);
    assert Cell(t, 0, "name") == Str("Pen");
    assert !GoodProductRow(t, 0);
    PostProductsSpec(t);
  }

  /** The intended post schema accepts the same product. */
  lemma ShortNameAccepted()
    ensures ValidateIntendedPostProducts(PenTable()) == Ok(PenTable())
  {
    PenRow();
    IntendedPostProductsSpec(PenTable());
  }

  /** Every row of PenTable is a good product row under the intended schema, and its ids are distinct. */
  lemma PenRow()
    ensures HasProductColumns(PenTable())
    ensures forall i :: 0 <= i < |PenTable().rows| ==> IntendedProductRow(PenTable(), i)
    ensures Distinct(Col(PenTable(), "product_id"))
  {
    var t := PenTable();
    FirstOccurrence(t.columns, "product_id", 0);
    FirstOccurrence(t.columns, "name", 1);
    FirstOccurrence(t.columns, "category", 2);
    FirstOccurrence(t.columns, "price", 3);
    assert Cell(t, 0, "product_id") == Int(1);
    assert Cell(t, 0, "name") == Str("Pen");
    assert Cell(t, 0, "category") == Str("office");
    assert Cell(t, 0, "price") == Real(1.0);
    assert IntendedProductRow(t, 0);
    assert Col(t, "product_id") == [Int(1)];
  }

  /** Under the intended schema no accepted name is longer than 100 characters, and any name of at most
      100 characters passes the name check. */
  lemma IntendedNameBound(t: Frame)
    requires ValidateIntendedPostProducts(t).Ok?
    ensures HasProductColumns(t)
    ensures forall i :: 0 <= i < |t.rows| ==> Cell(t, i, "name").Str? && |Cell(t, i, "name").s| <= 100
  {
    IntendedPostProductsSpec(t);
    forall i | 0 <= i < |t.rows| ensures Cell(t, i, "name").Str? && |Cell(t, i, "name").s| <= 100 {
      assert IntendedProductRow(t, i);
    }
  }
}
