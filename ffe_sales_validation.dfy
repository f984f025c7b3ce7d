/**
 * The strict sales schema of the file-formats exercise; order_date is coerced to a date before the
 * checks run.
 */
module FileFormatsSales {
  import opened Results
  import opened Frames
  import opened Schemas

  /** Positive ids, amount and quantity; order_date coerced to a date; no other columns. */
  function Sales(): Schema {
    Schema([
      Required("order_id", IntType, [Gt(0.0)]),
      Required("customer_id", IntType, [Gt(0.0)]),
      Required("amount", FloatType, [Gt(0.0)]),
      Required("quantity", IntType, [Gt(0.0)]),
      ColumnSpec("order_date", DateType, false, false, true, [])], true)
  }

  const SalesColumns: seq<string> := ["order_id", "customer_id", "amount", "quantity", "order_date"]

  /** validate_sales_data(df, lazy): the coerced table when it conforms; otherwise the error validate raises. */
  function ValidateSales(t: Frame, lazy: bool, parse: Parser): (r: Result<Frame>)
    ensures r.Ok? ==> Conforms(Sales(), r.value) && r.value.columns == t.columns && |r.value.rows| == |t.rows|
    ensures r.Err? ==> r.error == (if lazy then SchemaErrors else SchemaError)
  {
    ValidateCoercing(Sales(), t, lazy, parse)
  }

  /** All five sales columns are present. */
  predicate HasSalesColumns(t: Frame) {
    && "order_id" in t.columns && "customer_id" in t.columns && "amount" in t.columns
    && "quantity" in t.columns && "order_date" in t.columns
  }

  /** One sale: positive ids, amount and quantity, and a date. */
  predicate GoodSalesRow(t: Frame, i: int)
    requires 0 <= i < |t.rows| && HasSalesColumns(t)
  {
    && Cell(t, i, "order_id").Int? && Cell(t, i, "order_id").i > 0
    && Cell(t, i, "customer_id").Int? && Cell(t, i, "customer_id").i > 0
    && Cell(t, i, "amount").Real? && Cell(t, i, "amount").r > 0.0
    && Cell(t, i, "quantity").Int? && Cell(t, i, "quantity").i > 0
    && Cell(t, i, "order_date").Date?
  }

  lemma SalesPresent(t: Frame)
    ensures Present(Sales(), t) <==> HasSalesColumns(t)
  {
    var s := Sales().columns;
    if Present(Sales(), t) {
      assert s[0] in s && s[1] in s && s[2] in s && s[3] in s && s[4] in s;
    }
    if HasSalesColumns(t) {
      forall spec | spec in s ensures spec.name in t.columns {
      }
    }
  }

  lemma SalesCells0(t: Frame, i: int)
    requires 0 <= i < |t.rows| && HasSalesColumns(t)
    ensures CellConforms(Sales().columns[0], Cell(t, i, "order_id")) <==> Cell(t, i, "order_id").Int? && Cell(t, i, "order_id").i > 0
    ensures CellConforms(Sales().columns[1], Cell(t, i, "customer_id")) <==> Cell(t, i, "customer_id").Int? && Cell(t, i, "customer_id").i > 0
    ensures CellConforms(Sales().columns[2], Cell(t, i, "amount")) <==> Cell(t, i, "amount").Real? && Cell(t, i, "amount").r > 0.0
  {
    var s := Sales().columns;
    CellConformsOne(s[0], Cell(t, i, "order_id"), Gt(0.0));
    CellConformsOne(s[1], Cell(t, i, "customer_id"), Gt(0.0));
    CellConformsOne(s[2], Cell(t, i, "amount"), Gt(0.0));
  }

  lemma SalesCells1(t: Frame, i: int)
    requires 0 <= i < |t.rows| && HasSalesColumns(t)
    ensures CellConforms(Sales().columns[3], Cell(t, i, "quantity")) <==> Cell(t, i, "quantity").Int? && Cell(t, i, "quantity").i > 0
    ensures CellConforms(Sales().columns[4], Cell(t, i, "order_date")) <==> Cell(t, i, "order_date").Date?
  {
    var s := Sales().columns;
    CellConformsOne(s[3], Cell(t, i, "quantity"), Gt(0.0));
    CellConformsPlain(s[4], Cell(t, i, "order_date"));
  }

  lemma SalesGoodCells(t: Frame, i: int)
    requires 0 <= i < |t.rows| && HasSalesColumns(t)
    ensures var s := Sales().columns;
      GoodSalesRow(t, i) <==>
      && CellConforms(s[0], Cell(t, i, "order_id"))
      && CellConforms(s[1], Cell(t, i, "customer_id"))
      && CellConforms(s[2], Cell(t, i, "amount"))
      && CellConforms(s[3], Cell(t, i, "quantity"))
      && CellConforms(s[4], Cell(t, i, "order_date"))
  {
    SalesCells0(t, i);
    SalesCells1(t, i);
  }

  lemma SalesCellsOfRow(t: Frame, i: int)
    requires 0 <= i < |t.rows| && HasSalesColumns(t) && Present(Sales(), t)
    requires RowConforms(Sales(), t, i)
    ensures var s := Sales().columns;
      && CellConforms(s[0], Cell(t, i, "order_id"))
      && CellConforms(s[1], Cell(t, i, "customer_id"))
      && CellConforms(s[2], Cell(t, i, "amount"))
      && CellConforms(s[3], Cell(t, i, "quantity"))
      && CellConforms(s[4], Cell(t, i, "order_date"))
  {
    var s := Sales().columns;
    RowConformsAt(Sales(), t, i);
    CellOfRow(Sales(), t, i, 0);
    CellOfRow(Sales(), t, i, 1);
    CellOfRow(Sales(), t, i, 2);
    CellOfRow(Sales(), t, i, 3);
    CellOfRow(Sales(), t, i, 4);
  }

  lemma SalesRowOfCells(t: Frame, i: int)
    requires 0 <= i < |t.rows| && HasSalesColumns(t) && Present(Sales(), t)
    requires var s := Sales().columns;
      && CellConforms(s[0], Cell(t, i, "order_id"))
      && CellConforms(s[1], Cell(t, i, "customer_id"))
      && CellConforms(s[2], Cell(t, i, "amount"))
      && CellConforms(s[3], Cell(t, i, "quantity"))
      && CellConforms(s[4], Cell(t, i, "order_date"))
    ensures RowConforms(Sales(), t, i)
  {
    var s := Sales().columns;
    forall k | 0 <= k < |s| ensures CellConforms(s[k], Cell(t, i, s[k].name)) {
      if k == 0 {} else if k == 1 {} else if k == 2 {} else if k == 3 {} else {}
    }
    RowConformsAt(Sales(), t, i);
  }

  /** Row i passes the schema exactly when GoodSalesRow holds of it. */
  lemma SalesRowSpec(t: Frame, i: int)
    requires 0 <= i < |t.rows| && HasSalesColumns(t)
    ensures Present(Sales(), t)
    ensures RowConforms(Sales(), t, i) <==> GoodSalesRow(t, i)
  {
    SalesPresent(t);
    SalesGoodCells(t, i);
    if RowConforms(Sales(), t, i) {
      SalesCellsOfRow(t, i);
    }
    if GoodSalesRow(t, i) {
      SalesRowOfCells(t, i);
    }
  }

  lemma SalesWholeColumns(t: Frame)
    requires HasSalesColumns(t)
    ensures Present(Sales(), t)
    ensures forall spec :: spec in Sales().columns ==> WholeColumnConforms(spec, Col(t, spec.name))
  {
    SalesPresent(t);
  }

  lemma SalesDeclared(c: string)
    ensures Declared(Sales(), c) <==> c in SalesColumns
  {
    var s := Sales().columns;
    if c in SalesColumns {
      if c == "order_id" {
        assert s[0] in s;
      } else if c == "customer_id" {
        assert s[1] in s;
      } else if c == "amount" {
        assert s[2] in s;
      } else if c == "quantity" {
        assert s[3] in s;
      } else if c == "order_date" {
        assert s[4] in s;
      }
    }
  }

  /** The strict schema accepts a (coerced) table exactly when its columns are exactly the five and
      every row is a good sales row. */
  lemma SalesSpec(t: Frame)
    ensures Conforms(Sales(), t) <==>
      && HasSalesColumns(t)
      && (forall k :: 0 <= k < |t.columns| ==> t.columns[k] in SalesColumns)
      && (forall i :: 0 <= i < |t.rows| ==> GoodSalesRow(t, i))
  {
    ConformsByRows(Sales(), t);
    SalesPresent(t);
    forall k | 0 <= k < |t.columns| ensures Declared(Sales(), t.columns[k]) <==> t.columns[k] in SalesColumns {
      SalesDeclared(t.columns[k]);
    }
    if HasSalesColumns(t) {
      SalesWholeColumns(t);
      forall i | 0 <= i < |t.rows| ensures RowConforms(Sales(), t, i) <==> GoodSalesRow(t, i) {
        SalesRowSpec(t, i);
      }
    }
  }
}
