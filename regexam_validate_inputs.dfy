/**
 * The input validators of the regular-exam pipeline. Each runs the raw schema non-lazily inside a
 * `try` whose handler catches SchemaErrors and hands the table back. The non-lazy run raises
 * SchemaError instead, so as written a failing table is not handed back: the error escapes.
 */
module RegExamValidateInputs {
  import opened Results
  import opened Frames
  import opened Schemas
  import opened RegExamInputSchemas

  /** validate_input_sales_schema as written. */
  function ValidateInputSales(t: Frame): (r: Result<Frame>)
    ensures r.Ok? <==> Conforms(InputSales(), t)
    ensures r.Ok? ==> r.value == t
    ensures r.Err? ==> r.error == SchemaError
  {
    PreValidate(InputSales(), t)
  }

  /** validate_input_products_schema as written. */
  function ValidateInputProducts(t: Frame): (r: Result<Frame>)
    ensures r.Ok? <==> Conforms(InputProducts(), t)
    ensures r.Ok? ==> r.value == t
    ensures r.Err? ==> r.error == SchemaError
  {
    PreValidate(InputProducts(), t)
  }

  /** The sales validator hands back the very table it was given exactly when every raw row has the
      declared dtypes (Region and Time stamp may be missing); it never filters or edits rows. */
  lemma InputSalesPassThrough(t: Frame)
    ensures ValidateInputSales(t) == Ok(t) <==>
      HasRawSalesColumns(t) && forall i :: 0 <= i < |t.rows| ==> RawSalesRow(t, i)
    ensures ValidateInputSales(t).Ok? || ValidateInputSales(t) == Err(SchemaError)
  {
    InputSalesSpec(t);
  }

  /** The products validator likewise. */
  lemma InputProductsPassThrough(t: Frame)
    ensures ValidateInputProducts(t) == Ok(t) <==>
      HasRawProductColumns(t) && forall i :: 0 <= i < |t.rows| ==> RawProductRow(t, i)
    ensures ValidateInputProducts(t).Ok? || ValidateInputProducts(t) == Err(SchemaError)
  {
    InputProductsSpec(t);
  }

  /** One raw sale whose qty is missing. */
  function MissingQtyTable(): Frame {
    Table(["sales id", "proDuct Id", "Region", "qty", "Price", "Time stamp", "discount", "order_status"], [0],
      [[Int(1), Int(2), Str("North"), Null, Real(3.0), Str("2024-01-01"), Real(0.1), Str("shipped")]])
  }

  /** A raw sale with a missing qty: as written the validator raises. */
  lemma MissingQtyEscapes()
    ensures ValidateInputSales(MissingQtyTable()) == Err(SchemaError)
  {
    var t := MissingQtyTable();
    MissingQtyNotRaw();
    InputSalesPassThrough(t);
  }

  /** The table has every raw sales column but its one row lacks a qty. */
  lemma MissingQtyNotRaw()
    ensures HasRawSalesColumns(MissingQtyTable()) && !RawSalesRow(MissingQtyTable(), 0)
  {
    var t := MissingQtyTable();
    MissingQtyColumns();
    FirstOccurrence(t.columns, "qty", 3);
    assert Cell(t, 0, "qty") == Null;
  }

  lemma MissingQtyColumns()
    ensures HasRawSalesColumns(MissingQtyTable())
  {
    var cs := MissingQtyTable().columns;
    assert cs[0] == "sales id" && cs[1] == "proDuct Id" && cs[2] == "Region" && cs[3] == "qty";
    assert cs[4] == "Price" && cs[5] == "Time stamp" && cs[6] == "discount" && cs[7] == "order_status";
  }

  /** The advisory reading its handler was written for hands the same table back. */
  lemma MissingQtyAdvisory()
    ensures AdvisoryPreValidate(InputSales(), MissingQtyTable()) == Ok(MissingQtyTable())
  {
    assert NoCoercion(InputSales());
  }
}
