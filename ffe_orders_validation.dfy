/**
 * The strict orders schema of the file-formats exercise.
 */
module FileFormatsOrders {
  import opened Results
  import opened Frames
  import opened Schemas

  /** Positive ids, quantity and price; a product name of 1 to 100 characters; no other columns. */
  function Orders(): Schema {
    Schema([
      Required("order_id", IntType, [Gt(0.0)]),
      Required("customer_id", IntType, [Gt(0.0)]),
      Required("product", StrType, [StrLength(Some(1), Some(100))]),
      Required("quantity", IntType, [Gt(0.0)]),
      Required("price", FloatType, [Gt(0.0)])], true)
  }

  const OrderColumns: seq<string> := ["order_id", "customer_id", "product", "quantity", "price"]

  /** validate_orders_data(df, lazy): the table back when it conforms; otherwise the error validate raises. */
  function ValidateOrders(t: Frame, lazy: bool): (r: Result<Frame>)
    ensures r.Ok? <==> Conforms(Orders(), t)
    ensures r.Ok? ==> r.value == t
    ensures r.Err? ==> r.error == (if lazy then SchemaErrors else SchemaError)
  {
    Validate(Orders(), t, lazy)
  }

  /** All five order columns are present. */
  predicate HasOrderColumns(t: Frame) {
    && "order_id" in t.columns && "customer_id" in t.columns && "product" in t.columns
    && "quantity" in t.columns && "price" in t.columns
  }

  /** One order: positive ids, a product name of 1 to 100 characters, positive quantity and price. */
  predicate GoodOrderRow(t: Frame, i: int)
    requires 0 <= i < |t.rows| && HasOrderColumns(t)
  {
    && Cell(t, i, "order_id").Int? && Cell(t, i, "order_id").i > 0
    && Cell(t, i, "customer_id").Int? && Cell(t, i, "customer_id").i > 0
    && Cell(t, i, "product").Str? && 1 <= |Cell(t, i, "product").s| <= 100
    && Cell(t, i, "quantity").Int? && Cell(t, i, "quantity").i > 0
    && Cell(t, i, "price").Real? && Cell(t, i, "price").r > 0.0
  }

  lemma OrdersPresent(t: Frame)
    ensures Present(Orders(), t) <==> HasOrderColumns(t)
  {
    var s := Orders().columns;
    if Present(Orders(), t) {
      assert s[0] in s && s[1] in s && s[2] in s && s[3] in s && s[4] in s;
    }
    if HasOrderColumns(t) {
      forall spec | spec in s ensures spec.name in t.columns {
      }
    }
  }

  lemma OrdersCells0(t: Frame, i: int)
    requires 0 <= i < |t.rows| && HasOrderColumns(t)
    ensures CellConforms(Orders().columns[0], Cell(t, i, "order_id")) <==> Cell(t, i, "order_id").Int? && Cell(t, i, "order_id").i > 0
    ensures CellConforms(Orders().columns[1], Cell(t, i, "customer_id")) <==> Cell(t, i, "customer_id").Int? && Cell(t, i, "customer_id").i > 0
    ensures CellConforms(Orders().columns[2], Cell(t, i, "product")) <==> Cell(t, i, "product").Str? && 1 <= |Cell(t, i, "product").s| <= 100
  {
    var s := Orders().columns;
    CellConformsOne(s[0], Cell(t, i, "order_id"), Gt(0.0));
    CellConformsOne(s[1], Cell(t, i, "customer_id"), Gt(0.0));
    CellConformsOne(s[2], Cell(t, i, "product"), StrLength(Some(1), Some(100)));
  }

  lemma OrdersCells1(t: Frame, i: int)
    requires 0 <= i < |t.rows| && HasOrderColumns(t)
    ensures CellConforms(Orders().columns[3], Cell(t, i, "quantity")) <==> Cell(t, i, "quantity").Int? && Cell(t, i, "quantity").i > 0
    ensures CellConforms(Orders().columns[4], Cell(t, i, "price")) <==> Cell(t, i, "price").Real? && Cell(t, i, "price").r > 0.0
  {
    var s := Orders().columns;
    CellConformsOne(s[3], Cell(t, i, "quantity"), Gt(0.0));
    CellConformsOne(s[4], Cell(t, i, "price"), Gt(0.0));
  }

  lemma OrdersGoodCells(t: Frame, i: int)
    requires 0 <= i < |t.rows| && HasOrderColumns(t)
    ensures var s := Orders().columns;
      GoodOrderRow(t, i) <==>
      && CellConforms(s[0], Cell(t, i, "order_id"))
      && CellConforms(s[1], Cell(t, i, "customer_id"))
      && CellConforms(s[2], Cell(t, i, "product"))
      && CellConforms(s[3], Cell(t, i, "quantity"))
      && CellConforms(s[4], Cell(t, i, "price"))
  {
    OrdersCells0(t, i);
    OrdersCells1(t, i);
  }

  lemma OrdersCellsOfRow(t: Frame, i: int)
    requires 0 <= i < |t.rows| && HasOrderColumns(t) && Present(Orders(), t)
    requires RowConforms(Orders(), t, i)
    ensures var s := Orders().columns;
      && CellConforms(s[0], Cell(t, i, "order_id"))
      && CellConforms(s[1], Cell(t, i, "customer_id"))
      && CellConforms(s[2], Cell(t, i, "product"))
      && CellConforms(s[3], Cell(t, i, "quantity"))
      && CellConforms(s[4], Cell(t, i, "price"))
  {
    var s := Orders().columns;
    RowConformsAt(Orders(), t, i);
    CellOfRow(Orders(), t, i, 0);
    CellOfRow(Orders(), t, i, 1);
    CellOfRow(Orders(), t, i, 2);
    CellOfRow(Orders(), t, i, 3);
    CellOfRow(Orders(), t, i, 4);
  }

  lemma OrdersRowOfCells(t: Frame, i: int)
    requires 0 <= i < |t.rows| && HasOrderColumns(t) && Present(Orders(), t)
    requires var s := Orders().columns;
      && CellConforms(s[0], Cell(t, i, "order_id"))
      && CellConforms(s[1], Cell(t, i, "customer_id"))
      && CellConforms(s[2], Cell(t, i, "product"))
      && CellConforms(s[3], Cell(t, i, "quantity"))
      && CellConforms(s[4], Cell(t, i, "price"))
    ensures RowConforms(Orders(), t, i)
  {
    var s := Orders().columns;
    forall k | 0 <= k < |s| ensures CellConforms(s[k], Cell(t, i, s[k].name)) {
      if k == 0 {} else if k == 1 {} else if k == 2 {} else if k == 3 {} else {}
    }
    RowConformsAt(Orders(), t, i);
  }

  /** Row i passes the schema exactly when GoodOrderRow holds of it. */
  lemma OrdersRowSpec(t: Frame, i: int)
    requires 0 <= i < |t.rows| && HasOrderColumns(t)
    ensures Present(Orders(), t)
    ensures RowConforms(Orders(), t, i) <==> GoodOrderRow(t, i)
  {
    OrdersPresent(t);
    OrdersGoodCells(t, i);
    if RowConforms(Orders(), t, i) {
      OrdersCellsOfRow(t, i);
    }
    if GoodOrderRow(t, i) {
      OrdersRowOfCells(t, i);
    }
  }

  lemma OrdersWholeColumns(t: Frame)
    requires HasOrderColumns(t)
    ensures Present(Orders(), t)
    ensures forall spec :: spec in Orders().columns ==> WholeColumnConforms(spec, Col(t, spec.name))
  {
    OrdersPresent(t);
  }

  lemma OrdersDeclared(c: string)
    ensures Declared(Orders(), c) <==> c in OrderColumns
  {
    var s := Orders().columns;
    if c in OrderColumns {
      if c == "order_id" {
        assert s[0] in s;
      } else if c == "customer_id" {
        assert s[1] in s;
      } else if c == "product" {
        assert s[2] in s;
      } else if c == "quantity" {
        assert s[3] in s;
      } else if c == "price" {
        assert s[4] in s;
      }
    }
  }

  /** The strict schema accepts a table exactly when its columns are exactly the five (each present,
      none other) and every row is a good order row. */
  lemma OrdersSpec(t: Frame)
    ensures Conforms(Orders(), t) <==>
      && HasOrderColumns(t)
      && (forall k :: 0 <= k < |t.columns| ==> t.columns[k] in OrderColumns)
      && (forall i :: 0 <= i < |t.rows| ==> GoodOrderRow(t, i))
  {
    ConformsByRows(Orders(), t);
    OrdersPresent(t);
    forall k | 0 <= k < |t.columns| ensures Declared(Orders(), t.columns[k]) <==> t.columns[k] in OrderColumns {
      OrdersDeclared(t.columns[k]);
    }
    if HasOrderColumns(t) {
      OrdersWholeColumns(t);
      forall i | 0 <= i < |t.rows| ensures RowConforms(Orders(), t, i) <==> GoodOrderRow(t, i) {
        OrdersRowSpec(t, i);
      }
    }
  }
}
