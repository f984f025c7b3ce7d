/**
 * The transform step of the Airflow exercise pipeline. The three clean_* steps change the frame
 * they are given in place (relabel, drop incomplete rows, parse dates, write total_revenue) and then
 * validate it; the analytic steps build new frames: the joined table, monthly aggregates, customer
 * segments, anomalies below a threshold, and a trailing 7-row mean forecast (which again works on
 * its argument in place).
 *
 * The "pre" validators are used in their advisory reading (they hand the frame back either way),
 * and products are validated with the intended name bound; see the two schema modules.
 */
module AirflowTransform {
  import opened Results
  import opened Text
  import opened Frames
  import opened Grouping
  import opened DataFrames
  import opened Schemas
  import AirflowSalesSchema
  import AirflowCustomersSchema
  import AirflowProductsSchema
  import AirflowAggregatesSchema
  import AirflowSegmentedSchema
  import AirflowAnomaliesSchema
  import AirflowForecastSchema

  // ----- labels -----

  /** The clean_* label rewrite: every label lower-cased with its blanks turned into underscores, nothing stripped. */
  function Relabelled(t: Frame): (r: Frame)
    ensures r.rows == t.rows && r.index == t.index && |r.columns| == |t.columns|
    ensures forall k :: 0 <= k < |t.columns| ==> r.columns[k] == LowerLabel(t.columns[k])
  {
    Relabel(t, LowerLabel)
  }

  /** The clean_* label rewrite applied to the caller's frame. */
  method RelabelInPlace(df: DataFrame)
    requires df.Valid()
    modifies df
    ensures df.Valid() && df.Snapshot() == Relabelled(old(df.Snapshot()))
  {
    df.RelabelWith(LowerLabel);
  }

  /** The complete rows of the relabelled frame: what every clean_* step works on after its dropna. */
  function Complete(t: Frame): (r: Frame)
    ensures r.columns == Relabelled(t).columns
  {
    DropNa(Relabelled(t))
  }

  /** The complete frame holds exactly the input rows without a missing cell, under the new labels. */
  lemma CompleteSpec(t: Frame)
    ensures Complete(t).columns == Relabelled(t).columns
    ensures forall p :: 0 <= p < |Complete(t).rows| ==> NoNull(Complete(t).rows[p]) && Complete(t).rows[p] in t.rows
    ensures forall i :: 0 <= i < |t.rows| && NoNull(t.rows[i]) ==> t.rows[i] in Complete(t).rows
  {
    DropNaSpec(Relabelled(t));
  }

  /** No cell of the frame is missing. */
  predicate Full(d: Frame) {
    forall i, c :: 0 <= i < |d.rows| && c in d.columns ==> Cell(d, i, c) != Null
  }

  /** Every cell of a complete row is present. */
  lemma CompleteCells(t: Frame)
    ensures Full(Complete(t))
  {
    DropNaSpec(Relabelled(t));
  }

  // ----- clean_sales_data -----

  /** The frame clean_sales_data hands to its post validator: complete rows, order_date parsed
      (format="mixed", errors='coerce'), total_revenue = amount * quantity. */
  function SalesCleaned(t: Frame, parse: Parser): (r: Result<Frame>)
  {
    SalesFrom(Complete(t), parse)
  }

  /** The part of clean_sales_data after the dropna. */
  function SalesFrom(d: Frame, parse: Parser): (r: Result<Frame>)
  {
    if "order_date" !in d.columns then Err(KeyError("order_date"))
    else
      var u := Assign(d, "order_date", ToDates(Col(d, "order_date"), Mixed, parse));
      if "amount" !in u.columns then Err(KeyError("amount"))
      else if "quantity" !in u.columns then Err(KeyError("quantity"))
      else match MulCols(Col(u, "amount"), Col(u, "quantity"))
        case Err(e) => Err(e)
        case Ok(revenue) => Ok(Assign(u, "total_revenue", revenue))
  }

  /** clean_sales_data(sales_df): cleans the frame in place, then validates it. */
  method CleanSalesData(df: DataFrame, parse: Parser) returns (r: Result<Frame>)
    requires df.Valid()
    modifies df
    ensures df.Valid()
    ensures var c := SalesCleaned(old(df.Snapshot()), parse);
      && (c.Ok? ==> df.Snapshot() == c.value && r == AirflowSalesSchema.ValidatePostSales(c.value))
      && (c.Err? ==> r == Err(c.error))
  {
    var checked := AdvisoryPreValidate(AirflowSalesSchema.PreSales(), df.Snapshot());
    ghost var t0 := df.Snapshot();
    RelabelInPlace(df);
    df.DropNaInPlace();
    if "order_date" !in df.columns {
      return Err(KeyError("order_date"));
    }
    df.SetColumn("order_date", ToDates(Col(df.Snapshot(), "order_date"), Mixed, parse));
    if "amount" !in df.columns {
      return Err(KeyError("amount"));
    }
    if "quantity" !in df.columns {
      return Err(KeyError("quantity"));
    }
    var revenue := MulCols(Col(df.Snapshot(), "amount"), Col(df.Snapshot(), "quantity"));
    if revenue.Err? {
      return Err(revenue.error);
    }
    df.SetColumn("total_revenue", revenue.value);
    r := AirflowSalesSchema.ValidatePostSales(df.Snapshot());
  }

  /** Row i of the cleaned frame u against row i of the complete frame d: order_date is the parsed
      cell; amount and quantity are numbers and total_revenue is their product (Times: int times int stays
      an int, and its value is amount * quantity). */
  predicate CleanedSaleRow(d: Frame, u: Frame, parse: Parser, i: int)
    requires 0 <= i < |d.rows| == |u.rows| && "order_date" in d.columns
    requires "order_date" in u.columns && "amount" in u.columns && "quantity" in u.columns && "total_revenue" in u.columns
  {
    && Cell(u, i, "order_date") == ToDate(Cell(d, i, "order_date"), Mixed, parse)
    && IsNum(Cell(u, i, "amount")) && IsNum(Cell(u, i, "quantity")) && IsNum(Cell(u, i, "total_revenue"))
    && Cell(u, i, "total_revenue") == Times(Cell(u, i, "amount"), Cell(u, i, "quantity"))
  }

  /** Cleaning a complete sales row leaves every cell but order_date and total_revenue as it was. */
  lemma SalesRowKept(d: Frame, parse: Parser, i: int)
    requires Full(d) && SalesFrom(d, parse).Ok? && 0 <= i < |d.rows|
    ensures var u := SalesFrom(d, parse).value;
      && |u.rows| == |d.rows|
      && forall c :: c in d.columns && c != "order_date" && c != "total_revenue" ==>
           c in u.columns && Cell(u, i, c) == Cell(d, i, c) && Cell(u, i, c) != Null
  {
    var dates := ToDates(Col(d, "order_date"), Mixed, parse);
    var v := Assign(d, "order_date", dates);
    var revenue := MulCols(Col(v, "amount"), Col(v, "quantity")).value;
    var u := Assign(v, "total_revenue", revenue);
    assert u == SalesFrom(d, parse).value;
    forall c | c in d.columns && c != "order_date" && c != "total_revenue"
      ensures c in u.columns && Cell(u, i, c) == Cell(d, i, c) && Cell(u, i, c) != Null
    {
      AssignCell(d, "order_date", dates, c, i);
      AssignCell(v, "total_revenue", revenue, c, i);
    }
  }

  /** Cleaning a complete sales row parses its order_date and writes amount * quantity as total_revenue. */
  lemma SalesRowCleaned(d: Frame, parse: Parser, i: int)
    requires Full(d) && SalesFrom(d, parse).Ok? && 0 <= i < |d.rows|
    ensures var u := SalesFrom(d, parse).value;
      && |u.rows| == |d.rows| && "order_date" in d.columns
      && "order_date" in u.columns && "amount" in u.columns && "quantity" in u.columns && "total_revenue" in u.columns
      && CleanedSaleRow(d, u, parse, i)
  {
    var dates := ToDates(Col(d, "order_date"), Mixed, parse);
    var v := Assign(d, "order_date", dates);
    var revenue := MulCols(Col(v, "amount"), Col(v, "quantity")).value;
    assert SalesFrom(d, parse) == Ok(Assign(v, "total_revenue", revenue));
    AssignLabels(d, "order_date", dates);
    assert dates[i] == ToDate(Cell(d, i, "order_date"), Mixed, parse);
    CleanedFromParts(d, dates, revenue, parse, i);
  }

  /** The two assignments of clean_sales_data, taken one at a time, give a CleanedSaleRow. */
  lemma CleanedFromParts(d: Frame, dates: seq<Value>, revenue: seq<Value>, parse: Parser, i: int)
    requires "order_date" in d.columns && "amount" in d.columns && "quantity" in d.columns && 0 <= i < |d.rows|
    requires Cell(d, i, "amount") != Null && Cell(d, i, "quantity") != Null
    requires |dates| == |d.rows| && dates[i] == ToDate(Cell(d, i, "order_date"), Mixed, parse)
    requires var v := Assign(d, "order_date", dates);
      && MulCols(Col(v, "amount"), Col(v, "quantity")) == Ok(revenue)
    ensures var u := Assign(Assign(d, "order_date", dates), "total_revenue", revenue);
      && |u.rows| == |d.rows|
      && "order_date" in u.columns && "amount" in u.columns && "quantity" in u.columns && "total_revenue" in u.columns
      && CleanedSaleRow(d, u, parse, i)
  {
    var v := Assign(d, "order_date", dates);
    AssignCell(d, "order_date", dates, "order_date", i);
    AssignCell(d, "order_date", dates, "amount", i);
    AssignCell(d, "order_date", dates, "quantity", i);
    RevenueCells(v, revenue, i);
  }

  /** Parsing order_date in a complete frame: row i holds the parsed date and its present amount and quantity. */
  lemma DatedSaleCells(d: Frame, dates: seq<Value>, i: int)
    requires Full(d) && "order_date" in d.columns && 0 <= i < |d.rows| == |dates|
    ensures var v := Assign(d, "order_date", dates);
      && v.columns == d.columns && Cell(v, i, "order_date") == dates[i]
      && ("amount" in d.columns ==> Cell(v, i, "amount") != Null)
      && ("quantity" in d.columns ==> Cell(v, i, "quantity") != Null)
  {
    AssignCell(d, "order_date", dates, "order_date", i);
    if "amount" in d.columns {
      AssignCell(d, "order_date", dates, "amount", i);
    }
    if "quantity" in d.columns {
      AssignCell(d, "order_date", dates, "quantity", i);
    }
  }

  /** Writing amount * quantity as total_revenue: row i holds the product of its present amount and quantity. */
  lemma RevenueCells(v: Frame, revenue: seq<Value>, i: int)
    requires "order_date" in v.columns && "amount" in v.columns && "quantity" in v.columns && 0 <= i < |v.rows|
    requires MulCols(Col(v, "amount"), Col(v, "quantity")) == Ok(revenue)
    requires Cell(v, i, "amount") != Null && Cell(v, i, "quantity") != Null
    ensures var u := Assign(v, "total_revenue", revenue);
      && "order_date" in u.columns && "amount" in u.columns && "quantity" in u.columns && "total_revenue" in u.columns
      && Cell(u, i, "order_date") == Cell(v, i, "order_date")
      && IsNum(Cell(u, i, "amount")) && IsNum(Cell(u, i, "quantity")) && IsNum(Cell(u, i, "total_revenue"))
      && Cell(u, i, "total_revenue") == Times(Cell(u, i, "amount"), Cell(u, i, "quantity"))
  {
    var a, q := Col(v, "amount")[i], Col(v, "quantity")[i];
    assert revenue[i] == Times(a, q);
    AssignCell(v, "total_revenue", revenue, "order_date", i);
    AssignCell(v, "total_revenue", revenue, "total_revenue", i);
    AssignCell(v, "total_revenue", revenue, "amount", i);
    AssignCell(v, "total_revenue", revenue, "quantity", i);
  }

  /** One row of a cleaned sales frame: CleanedSaleRow holds, and every other cell is the present cell
      of the complete row. */
  lemma SalesRowFrom(d: Frame, parse: Parser, i: int)
    requires Full(d) && SalesFrom(d, parse).Ok? && 0 <= i < |d.rows|
    ensures var u := SalesFrom(d, parse).value;
      && |u.rows| == |d.rows| && "order_date" in d.columns
      && "order_date" in u.columns && "amount" in u.columns && "quantity" in u.columns && "total_revenue" in u.columns
      && CleanedSaleRow(d, u, parse, i)
      && (forall c :: c in d.columns && c != "order_date" && c != "total_revenue" ==>
            c in u.columns && Cell(u, i, c) == Cell(d, i, c) && Cell(u, i, c) != Null)
  {
    SalesRowKept(d, parse, i);
    SalesRowCleaned(d, parse, i);
  }

  /** The shape of a cleaned sales frame: the rows and index of the complete frame, its columns plus total_revenue. */
  lemma SalesFromShape(d: Frame, parse: Parser)
    requires SalesFrom(d, parse).Ok?
    ensures var u := SalesFrom(d, parse).value;
      && u.index == d.index && |u.rows| == |d.rows| && "order_date" in d.columns
      && "order_date" in u.columns && "amount" in u.columns && "quantity" in u.columns && "total_revenue" in u.columns
      && (forall c :: c in d.columns ==> c in u.columns)
  {
  }

  /** A cleaned sales frame keeps the complete rows in order (same index, same count), and every row
      is a CleanedSaleRow of the complete one. */
  lemma SalesCleanedSpec(t: Frame, parse: Parser)
    requires SalesCleaned(t, parse).Ok?
    ensures var d := Complete(t);
      var u := SalesCleaned(t, parse).value;
      && u.index == d.index && |u.rows| == |d.rows| && "order_date" in d.columns
      && "order_date" in u.columns && "amount" in u.columns && "quantity" in u.columns && "total_revenue" in u.columns
      && (forall c :: c in d.columns ==> c in u.columns)
      && (forall i :: 0 <= i < |u.rows| ==> CleanedSaleRow(d, u, parse, i))
  {
    var d := Complete(t);
    CompleteCells(t);
    SalesFromShape(d, parse);
    var u := SalesFrom(d, parse).value;
    forall i | 0 <= i < |u.rows| ensures CleanedSaleRow(d, u, parse, i) {
      SalesRowFrom(d, parse, i);
    }
  }

  /** An order_date that does not parse survives dropna as a missing cell, and then fails the post schema. */
  lemma UnparsableOrderDateRejected(t: Frame, parse: Parser, i: int)
    requires SalesCleaned(t, parse).Ok?
    requires 0 <= i < |Complete(t).rows| && "order_date" in Complete(t).columns
    requires ToDate(Cell(Complete(t), i, "order_date"), Mixed, parse) == Null
    ensures AirflowSalesSchema.ValidatePostSales(SalesCleaned(t, parse).value) == Err(SchemaError)
  {
    var u := SalesCleaned(t, parse).value;
    SalesCleanedSpec(t, parse);
    assert CleanedSaleRow(Complete(t), u, parse, i);
    AirflowSalesSchema.PostSalesSpec(u);
    if AirflowSalesSchema.HasSalesColumns(u) {
      assert !AirflowSalesSchema.GoodSalesRow(u, i);
    }
  }

  // ----- clean_customers_data -----

  /** The frame clean_customers_data hands to its post validator: complete rows, signup_date parsed. */
  function CustomersCleaned(t: Frame, parse: Parser): (r: Result<Frame>)
  {
    CustomersFrom(Complete(t), parse)
  }

  /** The part of clean_customers_data after the dropna. */
  function CustomersFrom(d: Frame, parse: Parser): (r: Result<Frame>)
  {
    if "signup_date" !in d.columns then Err(KeyError("signup_date"))
    else Ok(Assign(d, "signup_date", ToDates(Col(d, "signup_date"), Mixed, parse)))
  }

  /** clean_customers_data(customers_df): cleans the frame in place, then validates it. */
  method CleanCustomersData(df: DataFrame, parse: Parser) returns (r: Result<Frame>)
    requires df.Valid()
    modifies df
    ensures df.Valid()
    ensures var c := CustomersCleaned(old(df.Snapshot()), parse);
      && (c.Ok? ==> df.Snapshot() == c.value && r == AirflowCustomersSchema.ValidatePostCustomers(c.value))
      && (c.Err? ==> r == Err(c.error))
  {
    var checked := AdvisoryPreValidate(AirflowCustomersSchema.PreCustomers(), df.Snapshot());
    RelabelInPlace(df);
    df.DropNaInPlace();
    if "signup_date" !in df.columns {
      return Err(KeyError("signup_date"));
    }
    df.SetColumn("signup_date", ToDates(Col(df.Snapshot(), "signup_date"), Mixed, parse));
    r := AirflowCustomersSchema.ValidatePostCustomers(df.Snapshot());
  }

  /** Row i of a cleaned customers frame: signup_date is the parsed cell, every other cell is the
      present cell of the complete row. */
  lemma CustomerRowFrom(d: Frame, parse: Parser, i: int)
    requires Full(d) && CustomersFrom(d, parse).Ok? && 0 <= i < |d.rows|
    ensures var u := CustomersFrom(d, parse).value;
      && u.columns == d.columns && u.index == d.index && |u.rows| == |d.rows|
      && Cell(u, i, "signup_date") == ToDate(Cell(d, i, "signup_date"), Mixed, parse)
      && (forall c :: c in d.columns && c != "signup_date" ==> Cell(u, i, c) == Cell(d, i, c) && Cell(u, i, c) != Null)
  {
    var dates := ToDates(Col(d, "signup_date"), Mixed, parse);
    var u := Assign(d, "signup_date", dates);
    AssignCell(d, "signup_date", dates, "signup_date", i);
    forall c | c in d.columns && c != "signup_date"
      ensures Cell(u, i, c) == Cell(d, i, c) && Cell(u, i, c) != Null
    {
      AssignCell(d, "signup_date", dates, c, i);
    }
  }

  /** A cleaned customers frame has the complete rows, same labels and index; signup_date is the
      parsed cell of each, every other cell the present cell of the complete row. */
  lemma CustomersCleanedSpec(t: Frame, parse: Parser)
    requires CustomersCleaned(t, parse).Ok?
    ensures var d := Complete(t);
      var u := CustomersCleaned(t, parse).value;
      && u.columns == d.columns && u.index == d.index && |u.rows| == |d.rows| && "signup_date" in d.columns
      && (forall i :: 0 <= i < |u.rows| ==> Cell(u, i, "signup_date") == ToDate(Cell(d, i, "signup_date"), Mixed, parse))
      && (forall i, c :: 0 <= i < |u.rows| && c in d.columns && c != "signup_date" ==>
            Cell(u, i, c) == Cell(d, i, c) && Cell(u, i, c) != Null)
  {
    var d := Complete(t);
    CompleteCells(t);
    var u := CustomersFrom(d, parse).value;
    forall i | 0 <= i < |u.rows|
      ensures Cell(u, i, "signup_date") == ToDate(Cell(d, i, "signup_date"), Mixed, parse)
      ensures forall c :: c in d.columns && c != "signup_date" ==> Cell(u, i, c) == Cell(d, i, c) && Cell(u, i, c) != Null
    {
      CustomerRowFrom(d, parse, i);
    }
  }

  /** A signup_date that does not parse survives dropna as a missing cell, and then fails the post schema. */
  lemma UnparsableSignupRejected(t: Frame, parse: Parser, i: int)
    requires CustomersCleaned(t, parse).Ok?
    requires 0 <= i < |Complete(t).rows| && "signup_date" in Complete(t).columns
    requires ToDate(Cell(Complete(t), i, "signup_date"), Mixed, parse) == Null
    ensures AirflowCustomersSchema.ValidatePostCustomers(CustomersCleaned(t, parse).value) == Err(SchemaError)
  {
    var u := CustomersCleaned(t, parse).value;
    CustomersCleanedSpec(t, parse);
    AirflowCustomersSchema.PostCustomersSpec(u);
    if AirflowCustomersSchema.HasCustomerColumns(u) {
      assert !AirflowCustomersSchema.GoodCustomerRow(u, i);
    }
  }

  // ----- clean_products_data -----

  /** clean_products_data(products_df): relabels and drops incomplete rows in place, then validates
      (name length at most 100). */
  method CleanProductsData(df: DataFrame) returns (r: Result<Frame>)
    requires df.Valid()
    modifies df
    ensures df.Valid() && df.Snapshot() == Complete(old(df.Snapshot()))
    ensures r == AirflowProductsSchema.ValidateIntendedPostProducts(Complete(old(df.Snapshot())))
  {
    var checked := AdvisoryPreValidate(AirflowProductsSchema.PreProducts(), df.Snapshot());
    RelabelInPlace(df);
    df.DropNaInPlace();
    r := AirflowProductsSchema.ValidateIntendedPostProducts(df.Snapshot());
  }

  /** Cleaned products pass exactly when the labels are there, every complete row has the types and
      bounds of the post schema and no product_id repeats; a passing result is the complete frame
      itself, whose rows are the input rows with no missing cell. */
  lemma ProductsCleanedSpec(t: Frame)
    ensures var d := Complete(t);
      var r := AirflowProductsSchema.ValidateIntendedPostProducts(d);
      && (r.Ok? <==>
            && AirflowProductsSchema.HasProductColumns(d)
            && (forall i :: 0 <= i < |d.rows| ==> AirflowProductsSchema.IntendedProductRow(d, i))
            && Distinct(Col(d, "product_id")))
      && (r.Ok? ==> r.value == d && forall p :: 0 <= p < |d.rows| ==> NoNull(d.rows[p]) && d.rows[p] in t.rows)
  {
    AirflowProductsSchema.IntendedPostProductsSpec(Complete(t));
    CompleteSpec(t);
  }

  // ----- merge_data -----

  /** sales ⋈ customers on customer_id, then ⋈ products on product_id, both inner. */
  function Joined(sales: Frame, customers: Frame, products: Frame): (r: Result<Frame>)
  {
    match Merge(sales, customers, "customer_id", "customer_id", Inner)
    case Err(e) => Err(e)
    case Ok(m) => Merge(m, products, "product_id", "product_id", Inner)
  }

  /** merge_data: the joined table with profit_margin = profit / total_revenue. */
  function MergeData(sales: Frame, customers: Frame, products: Frame): (r: Result<Frame>)
  {
    match Joined(sales, customers, products)
    case Err(e) => Err(e)
    case Ok(m) =>
      if "profit" !in m.columns then Err(KeyError("profit"))
      else if "total_revenue" !in m.columns then Err(KeyError("total_revenue"))
      else match DivCols(Col(m, "profit"), Col(m, "total_revenue"))
        case Err(e) => Err(e)
        case Ok(margin) => Ok(Assign(m, "profit_margin", margin))
  }

  /** The joined rows are exactly the sale-customer pairs with equal customer_id, each extended by
      every product whose product_id equals the pair's. */
  lemma JoinedSpec(sales: Frame, customers: Frame, products: Frame, x: seq<Value>, y: seq<Value>)
    requires "customer_id" in sales.columns && "customer_id" in customers.columns
    ensures var m1 := Merge(sales, customers, "customer_id", "customer_id", Inner);
      && m1.Ok?
      && (y in m1.value.rows <==> exists i, j :: JoinedPair(sales.rows, IndexOf(sales.columns, "customer_id"),
            customers.rows, IndexOf(customers.columns, "customer_id"), KeptRight(customers, "customer_id", true), y, i, j))
      && ("product_id" in m1.value.columns && "product_id" in products.columns ==>
            && Joined(sales, customers, products).Ok?
            && (x in Joined(sales, customers, products).value.rows <==> exists i, j :: JoinedPair(m1.value.rows, IndexOf(m1.value.columns, "product_id"),
                  products.rows, IndexOf(products.columns, "product_id"), KeptRight(products, "product_id", true), x, i, j)))
  {
    MergeInnerSpec(sales, customers, "customer_id", y);
    var m1 := Merge(sales, customers, "customer_id", "customer_id", Inner).value;
    if "product_id" in m1.columns && "product_id" in products.columns {
      MergeInnerSpec(m1, products, "product_id", x);
    }
  }

  /** Every merged row keeps the joined cells and gains profit_margin = profit / total_revenue
      (missing when either is missing or the revenue is zero). */
  lemma MergeDataSpec(sales: Frame, customers: Frame, products: Frame)
    requires MergeData(sales, customers, products).Ok?
    ensures var m := Joined(sales, customers, products).value;
      var r := MergeData(sales, customers, products).value;
      && |r.rows| == |m.rows| && r.index == m.index && "profit" in m.columns && "total_revenue" in m.columns
      && (forall c :: c in m.columns ==> c in r.columns)
      && (forall i :: 0 <= i < |m.rows| ==>
            && NumOrNull(Cell(m, i, "profit")) && NumOrNull(Cell(m, i, "total_revenue"))
            && Cell(r, i, "profit_margin") == Divide(Cell(m, i, "profit"), Cell(m, i, "total_revenue")))
      && (forall i, c :: 0 <= i < |m.rows| && c in m.columns && c != "profit_margin" ==> Cell(r, i, c) == Cell(m, i, c))
  {
    var m := Joined(sales, customers, products).value;
    var margin := DivCols(Col(m, "profit"), Col(m, "total_revenue")).value;
    var r := Assign(m, "profit_margin", margin);
    forall i | 0 <= i < |m.rows|
      ensures NumOrNull(Cell(m, i, "profit")) && NumOrNull(Cell(m, i, "total_revenue"))
      ensures Cell(r, i, "profit_margin") == Divide(Cell(m, i, "profit"), Cell(m, i, "total_revenue"))
    {
      AssignCell(m, "profit_margin", margin, "profit_margin", i);
      assert Col(m, "profit")[i] == Cell(m, i, "profit");
      assert Col(m, "total_revenue")[i] == Cell(m, i, "total_revenue");
    }
    forall i, c | 0 <= i < |m.rows| && c in m.columns && c != "profit_margin" ensures Cell(r, i, c) == Cell(m, i, c) {
      AssignCell(m, "profit_margin", margin, c, i);
    }
  }

  // ----- compute_monthly_aggregates -----

  const AggregateColumns: seq<string> := ["order_date", "total_sales", "unique_customers"]

  /** The aggregate row of month k: its month-end date, the sum of that month's revenue and the number
      of distinct customers who bought in it. */
  function MonthRow(revenue: seq<Value>, customers: seq<Value>, dates: seq<Value>, k: int, integral: bool): (row: seq<Value>)
    requires AllNumOrNull(revenue) && |revenue| == |dates| == |customers| && (integral ==> AllInt(revenue))
    ensures |row| == 3
  {
    [Date(MonthEnd(k)), Total(MonthCells(revenue, dates, k), integral), Int(DistinctCount(MonthCells(customers, dates, k)))]
  }

  /** The monthly grouping of compute_monthly_aggregates, after order_date is parsed: one row per
      calendar month, with its revenue sum and its number of distinct customers. */
  function MonthlyAggregates(t: Frame, parse: Parser): (r: Result<Frame>)
  {
    if "order_date" !in t.columns then Err(KeyError("order_date"))
    else if "total_revenue" !in t.columns then Err(KeyError("total_revenue"))
    else if "customer_id" !in t.columns then Err(KeyError("customer_id"))
    else
      var dates := ToDates(Col(t, "order_date"), Mixed, parse);
      var revenue := Col(t, "total_revenue");
      if !AllNumOrNull(revenue) then Err(TypeError("sum of non-numeric column"))
      else Ok(MonthlyTable(revenue, Col(t, "customer_id"), dates))
  }

  /** The monthly table of parallel revenue, customer and date columns: one MonthRow per month of the span. */
  function MonthlyTable(revenue: seq<Value>, customers: seq<Value>, dates: seq<Value>): Frame
    requires AllNumOrNull(revenue) && |revenue| == |dates| == |customers|
  {
    var ks := MonthSpan(dates);
    Table(AggregateColumns, Range(|ks|),
      seq(|ks|, j requires 0 <= j < |ks| => MonthRow(revenue, customers, dates, ks[j], AllInt(revenue))))
  }

  /** The monthly table has one row per month of the span, which runs without a gap over every month
      holding a date; each row is that month's end, its revenue sum and its count of distinct customers. */
  lemma MonthlyTableSpec(revenue: seq<Value>, customers: seq<Value>, dates: seq<Value>)
    requires AllNumOrNull(revenue) && |revenue| == |dates| == |customers|
    ensures var a := MonthlyTable(revenue, customers, dates);
      var ks := MonthSpan(dates);
      && a.columns == AggregateColumns && |a.rows| == |ks|
      && (forall j :: 0 < j < |ks| ==> ks[j] == ks[j - 1] + 1)
      && (forall i :: 0 <= i < |dates| && dates[i].Date? ==> MonthNumber(dates[i].d) in ks)
      && (ks == [] <==> forall i :: 0 <= i < |dates| ==> !dates[i].Date?)
      && (forall j :: 0 <= j < |ks| ==>
            && a.rows[j][0] == Date(MonthEnd(ks[j])) && MonthNumber(a.rows[j][0].d) == ks[j]
            && IsNum(a.rows[j][1]) && AsReal(a.rows[j][1]) == SumReal(MonthCells(revenue, dates, ks[j]))
            && a.rows[j][2] == Int(DistinctCount(MonthCells(customers, dates, ks[j]))))
  {
    MonthSpanSpec(dates);
    MonthlyTableRows(revenue, customers, dates);
  }

  /** Row j of the monthly table is month ks[j]: its end date, its revenue sum, its distinct customers. */
  lemma MonthlyTableRows(revenue: seq<Value>, customers: seq<Value>, dates: seq<Value>)
    requires AllNumOrNull(revenue) && |revenue| == |dates| == |customers|
    ensures var a := MonthlyTable(revenue, customers, dates);
      var ks := MonthSpan(dates);
      && a.columns == AggregateColumns && |a.rows| == |ks|
      && (forall j :: 0 <= j < |ks| ==>
            && a.rows[j][0] == Date(MonthEnd(ks[j])) && MonthNumber(a.rows[j][0].d) == ks[j]
            && IsNum(a.rows[j][1]) && AsReal(a.rows[j][1]) == SumReal(MonthCells(revenue, dates, ks[j]))
            && a.rows[j][2] == Int(DistinctCount(MonthCells(customers, dates, ks[j]))))
  {
    var a := MonthlyTable(revenue, customers, dates);
    var ks := MonthSpan(dates);
    forall j | 0 <= j < |ks|
      ensures && a.rows[j][0] == Date(MonthEnd(ks[j])) && MonthNumber(a.rows[j][0].d) == ks[j]
              && IsNum(a.rows[j][1]) && AsReal(a.rows[j][1]) == SumReal(MonthCells(revenue, dates, ks[j]))
              && a.rows[j][2] == Int(DistinctCount(MonthCells(customers, dates, ks[j])))
    {
      assert a.rows[j] == MonthRow(revenue, customers, dates, ks[j], AllInt(revenue));
    }
  }

  /** compute_monthly_aggregates(merged_df): the advisory pre step, the monthly table, the post schema. */
  function ComputeMonthlyAggregates(t: Frame, parse: Parser): (r: Result<Frame>)
  {
    match AdvisoryPreValidate(AirflowAggregatesSchema.Aggregates(), t)
    case Err(e) => Err(e)
    case Ok(checked) =>
      match MonthlyAggregates(checked, parse)
      case Err(e) => Err(e)
      case Ok(a) => AirflowAggregatesSchema.ValidatePostAggregates(a)
  }

  /** One row per calendar month from the earliest parsed order_date's to the latest's, with no gap
      and none missing; each labelled by its month end, with the month's revenue sum and its count of
      distinct customers. */
  lemma MonthlyAggregatesSpec(t: Frame, parse: Parser)
    requires MonthlyAggregates(t, parse).Ok?
    ensures "order_date" in t.columns && "total_revenue" in t.columns && "customer_id" in t.columns
    ensures var a := MonthlyAggregates(t, parse).value;
      var dates := ToDates(Col(t, "order_date"), Mixed, parse);
      var revenue := Col(t, "total_revenue");
      var ks := MonthSpan(dates);
      && a.columns == AggregateColumns && |a.rows| == |ks| && AllNumOrNull(revenue)
      && (forall j :: 0 < j < |ks| ==> ks[j] == ks[j - 1] + 1)
      && (forall i :: 0 <= i < |t.rows| && dates[i].Date? ==> MonthNumber(dates[i].d) in ks)
      && (ks == [] <==> forall i :: 0 <= i < |t.rows| ==> !dates[i].Date?)
      && (forall j :: 0 <= j < |ks| ==>
            && a.rows[j][0] == Date(MonthEnd(ks[j])) && MonthNumber(a.rows[j][0].d) == ks[j]
            && IsNum(a.rows[j][1]) && AsReal(a.rows[j][1]) == SumReal(MonthCells(revenue, dates, ks[j]))
            && a.rows[j][2] == Int(DistinctCount(MonthCells(Col(t, "customer_id"), dates, ks[j]))))
  {
    MonthlyTableSpec(Col(t, "total_revenue"), Col(t, "customer_id"), ToDates(Col(t, "order_date"), Mixed, parse));
  }

  /** Summing the monthly totals gives the total revenue of the rows whose order_date parsed: no dated
      sale is counted twice or lost. */
  lemma MonthlyTotalsAddUp(t: Frame, parse: Parser)
    requires MonthlyAggregates(t, parse).Ok?
    ensures var a := MonthlyAggregates(t, parse).value;
      var dates := ToDates(Col(t, "order_date"), Mixed, parse);
      var revenue := Col(t, "total_revenue");
      && "total_sales" in a.columns && AllNumOrNull(Col(a, "total_sales"))
      && AllNumOrNull(revenue) && AllNumOrNull(Pick(revenue, Dated(dates)))
      && SumReal(Col(a, "total_sales")) == SumReal(Pick(revenue, Dated(dates)))
  {
    var a := MonthlyAggregates(t, parse).value;
    var dates := ToDates(Col(t, "order_date"), Mixed, parse);
    var revenue := Col(t, "total_revenue");
    var ks := MonthSpan(dates);
    FirstOccurrence(AggregateColumns, "total_sales", 1);
    var col := Col(a, "total_sales");
    forall j | 0 <= j < |col| ensures IsNum(col[j]) && AsReal(col[j]) == SumReal(MonthCells(revenue, dates, ks[j])) {
      assert col[j] == a.rows[j][1];
    }
    SpanTotals(col, revenue, dates);
  }

  /** A monthly table over at least one date has a first row, whose distinct-customer count is an integer. */
  lemma MonthlyTableCounts(revenue: seq<Value>, customers: seq<Value>, dates: seq<Value>, i: int)
    requires AllNumOrNull(revenue) && |revenue| == |dates| == |customers|
    requires 0 <= i < |dates| && dates[i].Date?
    ensures var a := MonthlyTable(revenue, customers, dates);
      |a.rows| > 0 && "unique_customers" in a.columns && Cell(a, 0, "unique_customers").Int?
  {
    MonthSpanSpec(dates);
    FirstOccurrence(AggregateColumns, "unique_customers", 2);
  }

  /** As written, the post schema rejects every non-empty monthly table: nunique() yields integer
      counts, and the schema declares unique_customers a float column. */
  lemma MonthlyAggregatesRejected(t: Frame, parse: Parser, i: int)
    requires MonthlyAggregates(t, parse).Ok? && "order_date" in t.columns && 0 <= i < |t.rows|
    requires ToDate(Cell(t, i, "order_date"), Mixed, parse).Date?
    ensures ComputeMonthlyAggregates(t, parse) == Err(SchemaError)
  {
    var dates := ToDates(Col(t, "order_date"), Mixed, parse);
    var a := MonthlyTable(Col(t, "total_revenue"), Col(t, "customer_id"), dates);
    assert MonthlyAggregates(t, parse) == Ok(a);
    MonthlyTableCounts(Col(t, "total_revenue"), Col(t, "customer_id"), dates, i);
    AirflowAggregatesSchema.CustomerCountRejected(a, 0);
  }

  /** As written, compute_monthly_aggregates raises before it groups anything: its pre step holds the
      joined sales to the aggregates schema, and a joined table without a unique_customers column (the
      one merge_data builds has none) fails that schema. The model uses the advisory reading instead. */
  lemma MonthlyPreValidateRaises(t: Frame)
    requires "unique_customers" !in t.columns
    ensures AirflowAggregatesSchema.ValidatePreAggregates(t) == Err(SchemaError)
    ensures !AirflowAggregatesSchema.HasAggregateColumns(t)
  {
    var s := AirflowAggregatesSchema.Aggregates().columns;
    assert s[1] in s && s[1].name == "unique_customers";
  }

  // ----- segment_customers -----

  const SegmentEdges: seq<real> := [0.0, 1000.0, 5000.0, 10000.0]
  const SegmentLabels: seq<string> := ["Low", "Medium", "High", "VIP"]
  const SegmentColumns: seq<string> := ["customer_id", "total_spent", "customer_segment", "segmentation_date"]

  /** Each customer's summed total_revenue, one row per sorted customer_id, the sum labelled total_spent. */
  function Spending(sales: Frame): (r: Result<Frame>)
  {
    match GroupSum(sales, ["customer_id"], "total_revenue", "total_revenue")
    case Err(e) => Err(e)
    case Ok(g) => Ok(Rename(g, "total_revenue", "total_spent"))
  }

  /** What one customer spent: the sum of total_revenue over the sales rows carrying that customer_id. */
  function SpentBy(sales: Frame, id: Value): real
    requires "customer_id" in sales.columns && "total_revenue" in sales.columns
    requires AllNumOrNull(Col(sales, "total_revenue"))
  {
    SumReal(GroupCells(sales, ["customer_id"], [id], "total_revenue"))
  }

  /** The spending table is the groupby sum with its sum column relabelled total_spent. */
  lemma SpendingShape(sales: Frame)
    requires Spending(sales).Ok?
    ensures GroupSum(sales, ["customer_id"], "total_revenue", "total_revenue").Ok?
    ensures "customer_id" in sales.columns && "total_revenue" in sales.columns
    ensures AllNumOrNull(Col(sales, "total_revenue"))
    ensures Spending(sales).value.columns == ["customer_id", "total_spent"]
    ensures Spending(sales).value.rows == GroupSum(sales, ["customer_id"], "total_revenue", "total_revenue").value.rows
  {
    GroupSumRows(sales, ["customer_id"], "total_revenue", "total_revenue");
    var g := GroupSum(sales, ["customer_id"], "total_revenue", "total_revenue").value;
    assert Spending(sales) == Ok(Rename(g, "total_revenue", "total_spent"));
    RenamedSpent(g);
    assert ["customer_id"][0] in sales.columns;
  }

  /** Relabelling total_revenue as total_spent in the two-column groupby result. */
  lemma RenamedSpent(g: Frame)
    requires g.columns == ["customer_id"] + ["total_revenue"]
    ensures Rename(g, "total_revenue", "total_spent").columns == ["customer_id", "total_spent"]
    ensures Rename(g, "total_revenue", "total_spent").rows == g.rows
  {
  }

  /** Each spending row is a present customer_id and what that customer spent. */
  lemma SpendingTotals(sales: Frame)
    requires Spending(sales).Ok?
    ensures "customer_id" in sales.columns && "total_revenue" in sales.columns
    ensures AllNumOrNull(Col(sales, "total_revenue"))
    ensures var spent := Spending(sales).value;
      && spent.columns == ["customer_id", "total_spent"]
      && forall j :: 0 <= j < |spent.rows| ==>
           && spent.rows[j][0] != Null && IsNum(spent.rows[j][1])
           && AsReal(spent.rows[j][1]) == SpentBy(sales, spent.rows[j][0])
  {
    var keys := ["customer_id"];
    SpendingShape(sales);
    GroupSumTotals(sales, keys, "total_revenue", "total_revenue");
    var spent := Spending(sales).value;
    forall j | 0 <= j < |spent.rows| ensures spent.rows[j][..1] == [spent.rows[j][0]] {
    }
  }

  /** No customer_id has two spending rows. */
  lemma SpendingDistinct(sales: Frame)
    requires Spending(sales).Ok?
    ensures var spent := Spending(sales).value;
      forall j, k :: 0 <= j < k < |spent.rows| ==> spent.rows[j][0] != spent.rows[k][0]
  {
    var keys := ["customer_id"];
    SpendingShape(sales);
    GroupSumDistinct(sales, keys, "total_revenue", "total_revenue");
    var spent := Spending(sales).value;
    forall j | 0 <= j < |spent.rows| ensures spent.rows[j][..1] == [spent.rows[j][0]] {
    }
  }

  /** Every customer_id that occurs in sales has a spending row. */
  lemma SpendingCovers(sales: Frame)
    requires Spending(sales).Ok?
    ensures "customer_id" in sales.columns
    ensures var spent := Spending(sales).value;
      forall i :: 0 <= i < |sales.rows| && Cell(sales, i, "customer_id") != Null ==>
        exists j :: 0 <= j < |spent.rows| && spent.rows[j][0] == Cell(sales, i, "customer_id")
  {
    var keys := ["customer_id"];
    SpendingShape(sales);
    GroupSumCovers(sales, keys, "total_revenue", "total_revenue");
    var spent := Spending(sales).value;
    forall j | 0 <= j < |spent.rows| ensures spent.rows[j][..1] == [spent.rows[j][0]] {
    }
    forall i | 0 <= i < |sales.rows| ensures RowKey(sales, i, keys) == [Cell(sales, i, "customer_id")] {
    }
  }

  /** Left-merging the spending into customers on customer_id joins each customer row with the spend
      of the spending rows carrying its customer_id, or pads it with a missing cell. */
  lemma MergedSpendingRows(customers: Frame, spent: Frame)
    requires "customer_id" in customers.columns && spent.columns == ["customer_id", "total_spent"]
    ensures Merge(customers, spent, "customer_id", "customer_id", LeftOuter).Ok?
    ensures var m := Merge(customers, spent, "customer_id", "customer_id", LeftOuter).value;
      && m.rows == JoinRows(customers.rows, |customers.columns|, IndexOf(customers.columns, "customer_id"), spent.rows, 0, [1], 2, LeftOuter)
      && m.index == Range(|m.rows|)
      && m.columns == JoinLabels(customers.columns, ["total_spent"], Some("customer_id"))
  {
    MergeParts(customers, spent, "customer_id", "customer_id", LeftOuter);
    assert IndexOf(spent.columns, "customer_id") == 0;
    assert KeptRight(spent, "customer_id", true) == [1];
    assert Gather(spent.columns, [1]) == ["total_spent"];
  }

  /** The merged labels are the customer labels and total_spent last, unless customers already has a
      total_spent column (then both copies get suffixes and no total_spent is left). */
  lemma SpendingLabels(cols: seq<string>)
    ensures "total_spent" in cols ==> "total_spent" !in JoinLabels(cols, ["total_spent"], Some("customer_id"))
    ensures "total_spent" !in cols ==> JoinLabels(cols, ["total_spent"], Some("customer_id")) == cols + ["total_spent"]
  {
    var names := JoinLabels(cols, ["total_spent"], Some("customer_id"));
    var w := |cols|;
    if "total_spent" in cols {
      forall k | 0 <= k < |names| ensures names[k] != "total_spent" {
        if k < w && cols[k] == "total_spent" {
          assert |names[k]| == |"total_spent"| + 2;
        } else if k == w {
          assert |names[k]| == |"total_spent"| + 2;
        }
      }
    } else {
      assert names == cols + ["total_spent"];
    }
  }

  /** customers left-merged with a spending table on customer_id, less the rows without a total_spent. */
  function Buyers(customers: Frame, spent: Frame): (r: Result<Frame>)
    ensures r.Ok? ==> "total_spent" in r.value.columns
  {
    match Merge(customers, spent, "customer_id", "customer_id", LeftOuter)
    case Err(e) => Err(e)
    case Ok(m) =>
      var subset := ["total_spent"];
      assert "total_spent" in subset;
      DropNaSubset(m, subset)
  }

  /** Buyers keeps the customer labels and adds total_spent last; it fails unless customers has a
      customer_id column and no total_spent column of its own. */
  lemma BuyersLabels(customers: Frame, spent: Frame)
    requires spent.columns == ["customer_id", "total_spent"]
    requires Buyers(customers, spent).Ok?
    ensures "customer_id" in customers.columns && "total_spent" !in customers.columns
    ensures Buyers(customers, spent).value.columns == customers.columns + ["total_spent"]
  {
    MergedSpendingRows(customers, spent);
    SpendingLabels(customers.columns);
    var m := Merge(customers, spent, "customer_id", "customer_id", LeftOuter).value;
    assert "total_spent" in m.columns;
  }

  /** After dropna(subset=["total_spent"]) on a table whose last column is total_spent, row p is an input
      row whose last cell is present. */
  lemma SpentPresent(m: Frame, cols: seq<string>, p: int) returns (q: int)
    requires m.columns == cols + ["total_spent"] && "total_spent" !in cols
    requires DropNaSubset(m, ["total_spent"]).Ok? && 0 <= p < |DropNaSubset(m, ["total_spent"]).value.rows|
    ensures 0 <= q < |m.rows| && DropNaSubset(m, ["total_spent"]).value.rows[p] == m.rows[q]
    ensures m.rows[q][|cols|] != Null
  {
    q := DropNaSubsetRow(m, ["total_spent"], p);
    IndexOfAppend(cols, ["total_spent"], "total_spent");
    assert Cell(m, q, "total_spent") != Null;
  }

  /** Row p of Buyers is a row of the left join whose total_spent cell is present. */
  lemma BuyersJoined(customers: Frame, spent: Frame, p: int)
    requires spent.columns == ["customer_id", "total_spent"]
    requires Buyers(customers, spent).Ok? && 0 <= p < |Buyers(customers, spent).value.rows|
    requires "customer_id" in customers.columns && "total_spent" !in customers.columns
    ensures var row := Buyers(customers, spent).value.rows[p];
      && row in JoinRows(customers.rows, |customers.columns|, IndexOf(customers.columns, "customer_id"), spent.rows, 0, [1], 2, LeftOuter)
      && |row| > |customers.columns| && row[|customers.columns|] != Null
  {
    MergedSpendingRows(customers, spent);
    SpendingLabels(customers.columns);
    var m := Merge(customers, spent, "customer_id", "customer_id", LeftOuter).value;
    var q := SpentPresent(m, customers.columns, p);
  }

  /** A left-join row whose total_spent cell is present joins a customer row with a spending row
      carrying its customer_id. */
  lemma JoinedSpend(customers: Frame, spent: Frame, row: seq<Value>) returns (i: int, j: int)
    requires spent.columns == ["customer_id", "total_spent"] && "customer_id" in customers.columns
    requires row in JoinRows(customers.rows, |customers.columns|, IndexOf(customers.columns, "customer_id"), spent.rows, 0, [1], 2, LeftOuter)
    requires |row| > |customers.columns| && row[|customers.columns|] != Null
    ensures 0 <= i < |customers.rows| && 0 <= j < |spent.rows|
    ensures row == customers.rows[i] + [spent.rows[j][1]]
    ensures spent.rows[j][0] == Cell(customers, i, "customer_id")
  {
    var li := IndexOf(customers.columns, "customer_id");
    i, j := LeftJoinRowsFrom(customers.rows, |customers.columns|, li, spent.rows, 0, [1], 2, row);
    assert j >= 0;
    assert Gather(spent.rows[j], [1]) == [spent.rows[j][1]];
  }

  /** Row p of Buyers is a customer row followed by the spend of a spending row with its customer_id:
      the merge pads a customer without sales with a missing total_spent, and dropna removes exactly those. */
  lemma BuyersRow(customers: Frame, spent: Frame, p: int) returns (i: int, j: int)
    requires spent.columns == ["customer_id", "total_spent"]
    requires Buyers(customers, spent).Ok? && 0 <= p < |Buyers(customers, spent).value.rows|
    requires "customer_id" in customers.columns && "total_spent" !in customers.columns
    ensures 0 <= i < |customers.rows| && 0 <= j < |spent.rows|
    ensures Buyers(customers, spent).value.rows[p] == customers.rows[i] + [spent.rows[j][1]]
    ensures spent.rows[j][0] == Cell(customers, i, "customer_id")
  {
    BuyersJoined(customers, spent, p);
    i, j := JoinedSpend(customers, spent, Buyers(customers, spent).value.rows[p]);
  }

  /** A customer row joined with a spending row that carries its customer_id is among the left join's rows. */
  lemma SpendingJoinKeeps(customers: Frame, spent: Frame, i: int, j: int)
    requires spent.columns == ["customer_id", "total_spent"] && "customer_id" in customers.columns
    requires 0 <= i < |customers.rows| && 0 <= j < |spent.rows|
    requires spent.rows[j][0] == Cell(customers, i, "customer_id")
    ensures customers.rows[i] + [spent.rows[j][1]]
      in JoinRows(customers.rows, |customers.columns|, IndexOf(customers.columns, "customer_id"), spent.rows, 0, [1], 2, LeftOuter)
  {
    var li := IndexOf(customers.columns, "customer_id");
    assert li < |customers.columns| && spent.rows[j][0] == customers.rows[i][li];
    assert |spent.rows[j]| == 2 && Gather(spent.rows[j], [1]) == [spent.rows[j][1]];
    LeftJoinKeepsLeftRows(customers.rows, |customers.columns|, li, spent.rows, 0, [1], 2, i);
  }

  /** The left merge joins a customer with each spending row carrying its customer_id. */
  lemma MergedKept(customers: Frame, spent: Frame, i: int, j: int) returns (q: int)
    requires spent.columns == ["customer_id", "total_spent"]
    requires "customer_id" in customers.columns && "total_spent" !in customers.columns
    requires 0 <= i < |customers.rows| && 0 <= j < |spent.rows|
    requires spent.rows[j][0] == Cell(customers, i, "customer_id")
    ensures Merge(customers, spent, "customer_id", "customer_id", LeftOuter).Ok?
    ensures var m := Merge(customers, spent, "customer_id", "customer_id", LeftOuter).value;
      && 0 <= q < |m.rows| && m.rows[q] == customers.rows[i] + [spent.rows[j][1]]
      && "total_spent" in m.columns && Cell(m, q, "total_spent") == spent.rows[j][1]
  {
    SpendingJoinKeeps(customers, spent, i, j);
    MergedSpendingRows(customers, spent);
    SpendingLabels(customers.columns);
    var m := Merge(customers, spent, "customer_id", "customer_id", LeftOuter).value;
    var w := |customers.columns|;
    q :| 0 <= q < |m.rows| && m.rows[q] == customers.rows[i] + [spent.rows[j][1]];
    assert "total_spent" in m.columns && Cell(m, q, "total_spent") == spent.rows[j][1] by {
      IndexOfAppend(customers.columns, ["total_spent"], "total_spent");
      assert IndexOf(m.columns, "total_spent") == w;
    }
  }

  /** Every customer whose customer_id has a spending row with a spend is kept, joined with that spend. */
  lemma BuyersKept(customers: Frame, spent: Frame, i: int, j: int)
    requires spent.columns == ["customer_id", "total_spent"]
    requires "customer_id" in customers.columns && "total_spent" !in customers.columns
    requires 0 <= i < |customers.rows| && 0 <= j < |spent.rows|
    requires spent.rows[j][0] == Cell(customers, i, "customer_id") && spent.rows[j][1] != Null
    ensures Buyers(customers, spent).Ok?
    ensures customers.rows[i] + [spent.rows[j][1]] in Buyers(customers, spent).value.rows
  {
    var q := MergedKept(customers, spent, i, j);
    var m := Merge(customers, spent, "customer_id", "customer_id", LeftOuter).value;
    DropNaSubsetKeeps(m, ["total_spent"], q);
  }

  /** With one spending row per customer_id, Buyers row p is the customer at position index[p], the
      position it had in the merge (whose labels are 0..n-1), followed by its spend. */
  lemma BuyersAt(customers: Frame, spent: Frame, p: int)
    requires spent.columns == ["customer_id", "total_spent"]
    requires forall j, k :: 0 <= j < k < |spent.rows| ==> spent.rows[j][0] != spent.rows[k][0]
    requires "customer_id" in customers.columns && "total_spent" !in customers.columns
    requires Buyers(customers, spent).Ok? && 0 <= p < |Buyers(customers, spent).value.rows|
    ensures var b := Buyers(customers, spent).value;
      && 0 <= b.index[p] < |customers.rows|
      && b.rows[p][..|customers.columns|] == customers.rows[b.index[p]]
  {
    MergedSpendingRows(customers, spent);
    var m := Merge(customers, spent, "customer_id", "customer_id", LeftOuter).value;
    var q := DropNaSubsetRow(m, ["total_spent"], p);
    LeftJoinUnique(customers.rows, |customers.columns|, IndexOf(customers.columns, "customer_id"), spent.rows, 0, [1], 2);
  }

  /** pd.cut of total_spent into (0, 1000], (1000, 5000], (5000, 10000] and (10000, inf), labelled
      Low, Medium, High and VIP, written as customer_segment. */
  function Banded(d: Frame): (r: Result<Frame>)
    requires "total_spent" in d.columns
  {
    match Cut(Col(d, "total_spent"), SegmentEdges, true, SegmentLabels)
    case Err(e) => Err(e)
    case Ok(bands) => Ok(Assign(d, "customer_segment", bands))
  }

  /** segmentation_date: each row's own signup_date, parsed with format="mixed", errors='coerce'. */
  function SegmentDated(b: Frame, parse: Parser): (r: Result<Frame>)
  {
    if "signup_date" !in b.columns then Err(KeyError("signup_date"))
    else Ok(Assign(b, "segmentation_date", ToDates(Col(b, "signup_date"), Mixed, parse)))
  }

  /** segmentation_date as transform.py assigns it: the parsed signup_date Series of customers_df, aligned
      on the index labels, so row p gets the date of the customer labelled b.index[p] (missing if none). */
  function SegmentDatedAsWritten(b: Frame, customers: Frame, parse: Parser): (r: Result<Frame>)
  {
    if "signup_date" !in customers.columns then Err(KeyError("signup_date"))
    else
      var dates := ToDates(Col(customers, "signup_date"), Mixed, parse);
      Ok(Assign(b, "segmentation_date", seq(|b.rows|, p requires 0 <= p < |b.rows| => AtLabel(dates, customers.index, b.index[p]))))
  }

  /** The buyers of the spending table, banded. */
  function Segments(sales: Frame, customers: Frame): (r: Result<Frame>)
  {
    match Spending(sales)
    case Err(e) => Err(e)
    case Ok(spent) =>
      match Buyers(customers, spent)
      case Err(e) => Err(e)
      case Ok(d) => Banded(d)
  }

  /** segment_customers up to the column selection, every row dated with its own signup_date. */
  function SegmentState(sales: Frame, customers: Frame, parse: Parser): (r: Result<Frame>)
  {
    match Segments(sales, customers)
    case Err(e) => Err(e)
    case Ok(b) => SegmentDated(b, parse)
  }

  /** segment_customers up to the column selection, dated as transform.py does it. */
  function SegmentStateAsWritten(sales: Frame, customers: Frame, parse: Parser): (r: Result<Frame>)
  {
    match Segments(sales, customers)
    case Err(e) => Err(e)
    case Ok(b) => SegmentDatedAsWritten(b, customers, parse)
  }

  /** The four output columns, validated with the segmented schema. */
  function SegmentOutput(s: Frame): (r: Result<Frame>)
  {
    match Project(s, SegmentColumns)
    case Err(e) => Err(e)
    case Ok(o) => AirflowSegmentedSchema.ValidateSegmented(o)
  }

  /** segment_customers, each customer dated with its own signup_date. */
  function SegmentCustomers(sales: Frame, customers: Frame, parse: Parser): (r: Result<Frame>)
  {
    match SegmentState(sales, customers, parse)
    case Err(e) => Err(e)
    case Ok(s) => SegmentOutput(s)
  }

  /** segment_customers as written. */
  function SegmentCustomersAsWritten(sales: Frame, customers: Frame, parse: Parser): (r: Result<Frame>)
  {
    match SegmentStateAsWritten(sales, customers, parse)
    case Err(e) => Err(e)
    case Ok(s) => SegmentOutput(s)
  }

  /** Writing customer_segment into the buyers keeps every other cell: row p still holds customer i's
      cells and its total_spent. */
  lemma SegmentColumnCells(d: Frame, customers: Frame, i: int, bands: seq<Value>, p: int)
    requires d.columns == customers.columns + ["total_spent"] && "total_spent" !in customers.columns
    requires |bands| == |d.rows| && 0 <= p < |d.rows| && 0 <= i < |customers.rows|
    requires d.rows[p][..|customers.columns|] == customers.rows[i]
    ensures var b := Assign(d, "customer_segment", bands);
      && "total_spent" in b.columns && Cell(b, p, "total_spent") == d.rows[p][|customers.columns|]
      && Cell(b, p, "customer_segment") == bands[p]
      && forall c :: c in customers.columns && c != "customer_segment" ==> c in b.columns && Cell(b, p, c) == Cell(customers, i, c)
  {
    var cols := customers.columns;
    IndexOfAppend(cols, ["total_spent"], "total_spent");
    AssignCell(d, "customer_segment", bands, "total_spent", p);
    AssignCell(d, "customer_segment", bands, "customer_segment", p);
    forall c | c in cols && c != "customer_segment"
      ensures c in Assign(d, "customer_segment", bands).columns
      ensures Cell(Assign(d, "customer_segment", bands), p, c) == Cell(customers, i, c)
    {
      IndexOfAppend(cols, ["total_spent"], c);
      AssignCell(d, "customer_segment", bands, c, p);
      var k := IndexOf(cols, c);
      assert d.rows[p][k] == d.rows[p][..|cols|][k];
    }
  }

  /** Banding the buyers keeps every other cell of a row, and labels the row with the band of its
      total_spent. */
  lemma BandedCells(d: Frame, customers: Frame, i: int, p: int)
    requires d.columns == customers.columns + ["total_spent"] && "total_spent" !in customers.columns
    requires Banded(d).Ok? && 0 <= p < |d.rows| && 0 <= i < |customers.rows|
    requires d.rows[p][..|customers.columns|] == customers.rows[i]
    ensures var b := Banded(d).value;
      var v := d.rows[p][|customers.columns|];
      && |b.rows| == |d.rows| && b.index == d.index
      && "total_spent" in b.columns && "customer_segment" in b.columns
      && (forall c :: c in customers.columns && c != "customer_segment" ==> c in b.columns && Cell(b, p, c) == Cell(customers, i, c))
      && NumOrNull(v) && Cell(b, p, "total_spent") == v
      && Cell(b, p, "customer_segment") == CutValue(v, SegmentEdges, true, SegmentLabels)
  {
    var cols := customers.columns;
    var xs := Col(d, "total_spent");
    var bands := Cut(xs, SegmentEdges, true, SegmentLabels).value;
    assert Banded(d).value == Assign(d, "customer_segment", bands);
    SegmentColumnCells(d, customers, i, bands, p);
    assert xs[p] == d.rows[p][|cols|] by {
      IndexOfAppend(cols, ["total_spent"], "total_spent");
    }
    assert AllNumOrNull(xs) && bands[p] == CutValue(xs[p], SegmentEdges, true, SegmentLabels);
  }

  /** Row p of the buyers is the customer at position index[p] followed by what that customer spent. */
  lemma BuyerAt(sales: Frame, customers: Frame, p: int)
    requires Spending(sales).Ok? && Buyers(customers, Spending(sales).value).Ok?
    requires 0 <= p < |Buyers(customers, Spending(sales).value).value.rows|
    ensures "customer_id" in sales.columns && "total_revenue" in sales.columns
    ensures AllNumOrNull(Col(sales, "total_revenue"))
    ensures "customer_id" in customers.columns && "total_spent" !in customers.columns
    ensures var d := Buyers(customers, Spending(sales).value).value;
      var w := |customers.columns|;
      && d.columns == customers.columns + ["total_spent"]
      && 0 <= d.index[p] < |customers.rows| && d.rows[p][..w] == customers.rows[d.index[p]]
      && IsNum(d.rows[p][w]) && AsReal(d.rows[p][w]) == SpentBy(sales, Cell(customers, d.index[p], "customer_id"))
  {
    var spent := Spending(sales).value;
    SpendingTotals(sales);
    SpendingDistinct(sales);
    var d := Buyers(customers, spent).value;
    BuyersLabels(customers, spent);
    var i0, j := BuyersRow(customers, spent, p);
    BuyersAt(customers, spent, p);
    var w := |customers.columns|;
    assert customers.rows[d.index[p]] == customers.rows[i0] by {
      assert d.rows[p][..w] == customers.rows[i0];
    }
  }

  /** Row p of the banded buyers is the customer at position index[p]: every customer cell but a
      customer_segment of its own is kept. */
  lemma SegmentsCustomer(sales: Frame, customers: Frame, p: int)
    requires Segments(sales, customers).Ok? && 0 <= p < |Segments(sales, customers).value.rows|
    ensures "customer_id" in customers.columns && "total_spent" !in customers.columns
    ensures var b := Segments(sales, customers).value;
      && 0 <= b.index[p] < |customers.rows|
      && forall c :: c in customers.columns && c != "customer_segment" ==>
           c in b.columns && Cell(b, p, c) == Cell(customers, b.index[p], c)
  {
    var d := Buyers(customers, Spending(sales).value).value;
    assert Segments(sales, customers) == Banded(d);
    BuyerAt(sales, customers, p);
    BandedCells(d, customers, d.index[p], p);
  }

  /** Row p of the banded buyers carries what its customer spent and the band of that spend. */
  lemma SegmentsSpend(sales: Frame, customers: Frame, p: int)
    requires Segments(sales, customers).Ok? && 0 <= p < |Segments(sales, customers).value.rows|
    ensures "customer_id" in sales.columns && "total_revenue" in sales.columns
    ensures AllNumOrNull(Col(sales, "total_revenue"))
    ensures "customer_id" in customers.columns
    ensures var b := Segments(sales, customers).value;
      && 0 <= b.index[p] < |customers.rows|
      && "total_spent" in b.columns && "customer_segment" in b.columns
      && IsNum(Cell(b, p, "total_spent"))
      && AsReal(Cell(b, p, "total_spent")) == SpentBy(sales, Cell(customers, b.index[p], "customer_id"))
      && Cell(b, p, "customer_segment") == CutValue(Cell(b, p, "total_spent"), SegmentEdges, true, SegmentLabels)
  {
    var d := Buyers(customers, Spending(sales).value).value;
    assert Segments(sales, customers) == Banded(d);
    BuyerAt(sales, customers, p);
    BandedCells(d, customers, d.index[p], p);
  }

  /** Merging a spending table in and dropping the customers without a spend fails exactly when customers
      has no customer_id column or already has a total_spent column. */
  lemma BuyersOk(customers: Frame, spent: Frame)
    requires spent.columns == ["customer_id", "total_spent"]
    ensures Buyers(customers, spent).Ok? <==> "customer_id" in customers.columns && "total_spent" !in customers.columns
  {
    if Buyers(customers, spent).Ok? {
      BuyersLabels(customers, spent);
    } else if "customer_id" in customers.columns && "total_spent" !in customers.columns {
      MergedSpendingRows(customers, spent);
      SpendingLabels(customers.columns);
      assert false;
    }
  }

  /** In a table whose last column is total_spent, the total_spent cell is the last cell. */
  lemma SpentCell(d: Frame, cols: seq<string>, p: int)
    requires d.columns == cols + ["total_spent"] && "total_spent" !in cols && 0 <= p < |d.rows|
    ensures Cell(d, p, "total_spent") == d.rows[p][|cols|]
  {
    IndexOfAppend(cols, ["total_spent"], "total_spent");
  }

  /** A buyer's total_spent is a number. */
  lemma BuyerSpendNum(sales: Frame, customers: Frame, p: int)
    requires Spending(sales).Ok? && Buyers(customers, Spending(sales).value).Ok?
    requires 0 <= p < |Buyers(customers, Spending(sales).value).value.rows|
    ensures IsNum(Cell(Buyers(customers, Spending(sales).value).value, p, "total_spent"))
  {
    var d := Buyers(customers, Spending(sales).value).value;
    BuyerAt(sales, customers, p);
    SpentCell(d, customers.columns, p);
  }

  /** Every buyer's total_spent is a number, so pd.cut never meets text. */
  lemma BandedOk(sales: Frame, customers: Frame)
    requires Spending(sales).Ok? && Buyers(customers, Spending(sales).value).Ok?
    ensures Banded(Buyers(customers, Spending(sales).value).value).Ok?
  {
    var d := Buyers(customers, Spending(sales).value).value;
    var xs := Col(d, "total_spent");
    forall p | 0 <= p < |xs| ensures NumOrNull(xs[p]) {
      BuyerSpendNum(sales, customers, p);
    }
    assert AllNumOrNull(xs);
  }

  /** segment_customers fails before its date step exactly when the groupby fails, customers has no
      customer_id, or customers already has a total_spent column. */
  lemma SegmentsOk(sales: Frame, customers: Frame)
    ensures Segments(sales, customers).Ok? <==>
      Spending(sales).Ok? && "customer_id" in customers.columns && "total_spent" !in customers.columns
  {
    if Spending(sales).Ok? {
      SpendingShape(sales);
      BuyersOk(customers, Spending(sales).value);
      if Buyers(customers, Spending(sales).value).Ok? {
        BandedOk(sales, customers);
      }
    }
  }

  /** The banded buyers carry the customer labels and add total_spent and customer_segment. */
  lemma SegmentsLabels(sales: Frame, customers: Frame)
    requires Segments(sales, customers).Ok?
    ensures forall c :: c in Segments(sales, customers).value.columns <==>
      c in customers.columns || c == "total_spent" || c == "customer_segment"
  {
    var d := SegmentsBanded(sales, customers);
    BandedLabels(d);
    forall c ensures c in d.columns <==> c in customers.columns || c == "total_spent" {
      assert d.columns == customers.columns + ["total_spent"];
    }
  }

  /** The segmented frame is the banding of the buyers table, whose labels are the customer labels
      followed by total_spent. */
  lemma SegmentsBanded(sales: Frame, customers: Frame) returns (d: Frame)
    requires Segments(sales, customers).Ok?
    ensures "total_spent" in d.columns && d.columns == customers.columns + ["total_spent"]
    ensures Banded(d).Ok? && Segments(sales, customers) == Banded(d)
  {
    var spent := Spending(sales).value;
    SpendingShape(sales);
    BuyersLabels(customers, spent);
    d := Buyers(customers, spent).value;
  }

  /** Banding adds customer_segment and no other label. */
  lemma BandedLabels(d: Frame)
    requires "total_spent" in d.columns && Banded(d).Ok?
    ensures forall c :: c in Banded(d).value.columns <==> c in d.columns || c == "customer_segment"
  {
    var bands := Cut(Col(d, "total_spent"), SegmentEdges, true, SegmentLabels).value;
    AssignLabels(d, "customer_segment", bands);
  }

  /** Writing segmentation_date from each row's own signup_date keeps every other cell. */
  lemma SegmentDatedCells(b: Frame, parse: Parser, p: int)
    requires SegmentDated(b, parse).Ok? && 0 <= p < |b.rows|
    ensures "signup_date" in b.columns
    ensures var s := SegmentDated(b, parse).value;
      && |s.rows| == |b.rows| && s.index == b.index && "segmentation_date" in s.columns
      && (forall c :: c in b.columns && c != "segmentation_date" ==> c in s.columns && Cell(s, p, c) == Cell(b, p, c))
      && Cell(s, p, "segmentation_date") == ToDate(Cell(b, p, "signup_date"), Mixed, parse)
  {
    var dates := ToDates(Col(b, "signup_date"), Mixed, parse);
    AssignCell(b, "segmentation_date", dates, "segmentation_date", p);
    forall c | c in b.columns && c != "segmentation_date"
      ensures c in SegmentDated(b, parse).value.columns && Cell(SegmentDated(b, parse).value, p, c) == Cell(b, p, c)
    {
      AssignCell(b, "segmentation_date", dates, c, p);
    }
  }

  /** Writing segmentation_date as transform.py does keeps every other cell; row p gets the date held
      under its own index label in customers_df. */
  lemma SegmentDatedAsWrittenCells(b: Frame, customers: Frame, parse: Parser, p: int)
    requires SegmentDatedAsWritten(b, customers, parse).Ok? && 0 <= p < |b.rows|
    ensures "signup_date" in customers.columns
    ensures var s := SegmentDatedAsWritten(b, customers, parse).value;
      && |s.rows| == |b.rows| && s.index == b.index && "segmentation_date" in s.columns
      && (forall c :: c in b.columns && c != "segmentation_date" ==> c in s.columns && Cell(s, p, c) == Cell(b, p, c))
      && Cell(s, p, "segmentation_date") == AtLabel(ToDates(Col(customers, "signup_date"), Mixed, parse), customers.index, b.index[p])
  {
    var dates := ToDates(Col(customers, "signup_date"), Mixed, parse);
    var aligned := seq(|b.rows|, k requires 0 <= k < |b.rows| => AtLabel(dates, customers.index, b.index[k]));
    AssignCell(b, "segmentation_date", aligned, "segmentation_date", p);
    forall c | c in b.columns && c != "segmentation_date"
      ensures c in SegmentDatedAsWritten(b, customers, parse).value.columns
      ensures Cell(SegmentDatedAsWritten(b, customers, parse).value, p, c) == Cell(b, p, c)
    {
      AssignCell(b, "segmentation_date", aligned, c, p);
    }
  }

  /** The date step fails only for a missing signup_date column, in either reading, so both readings of
      segment_customers reach the column selection on the same inputs. */
  lemma SegmentStateOk(sales: Frame, customers: Frame, parse: Parser)
    ensures SegmentState(sales, customers, parse).Ok? <==>
      && Spending(sales).Ok? && "customer_id" in customers.columns && "total_spent" !in customers.columns
      && "signup_date" in customers.columns
    ensures SegmentStateAsWritten(sales, customers, parse).Ok? <==> SegmentState(sales, customers, parse).Ok?
  {
    SegmentsOk(sales, customers);
    if Segments(sales, customers).Ok? {
      var b := Segments(sales, customers).value;
      SegmentsLabels(sales, customers);
      assert "signup_date" in b.columns <==> "signup_date" in customers.columns;
      DatedOk(b, customers, parse);
      assert SegmentState(sales, customers, parse) == SegmentDated(b, parse);
      assert SegmentStateAsWritten(sales, customers, parse) == SegmentDatedAsWritten(b, customers, parse);
    }
  }

  /** Both date steps fail exactly when signup_date is missing. */
  lemma DatedOk(b: Frame, customers: Frame, parse: Parser)
    ensures SegmentDated(b, parse).Ok? <==> "signup_date" in b.columns
    ensures SegmentDatedAsWritten(b, customers, parse).Ok? <==> "signup_date" in customers.columns
  {
  }

  /** pd.cut with bins [0, 1000, 5000, 10000, inf]: right-closed bands, and no band at or below 0. */
  lemma SegmentBands(v: Value)
    requires IsNum(v) || v.Null?
    ensures CutValue(v, SegmentEdges, true, SegmentLabels) ==
      if v.Null? || AsReal(v) <= 0.0 then Null
      else if AsReal(v) <= 1000.0 then Str("Low")
      else if AsReal(v) <= 5000.0 then Str("Medium")
      else if AsReal(v) <= 10000.0 then Str("High")
      else Str("VIP")
  {
    if !v.Null? && AsReal(v) > 1000.0 {
      assert SegmentEdges[1..] == [1000.0, 5000.0, 10000.0] && SegmentLabels[1..] == ["Medium", "High", "VIP"];
      if AsReal(v) > 5000.0 {
        assert SegmentEdges[1..][1..] == [5000.0, 10000.0] && SegmentLabels[1..][1..] == ["High", "VIP"];
        if AsReal(v) > 10000.0 {
          assert SegmentEdges[1..][1..][1..] == [10000.0] && SegmentLabels[1..][1..][1..] == ["VIP"];
        }
      }
    }
  }

  /** Row p of segment_customers up to the column selection: the customer at position index[p], what it
      spent, the band of that spend and its own parsed signup_date. */
  lemma SegmentRow(sales: Frame, customers: Frame, parse: Parser, p: int)
    requires SegmentState(sales, customers, parse).Ok? && 0 <= p < |SegmentState(sales, customers, parse).value.rows|
    ensures "customer_id" in sales.columns && "total_revenue" in sales.columns
    ensures AllNumOrNull(Col(sales, "total_revenue"))
    ensures "customer_id" in customers.columns && "signup_date" in customers.columns
    ensures var s := SegmentState(sales, customers, parse).value;
      var i := s.index[p];
      && 0 <= i < |customers.rows| && AirflowSegmentedSchema.HasSegmentedColumns(s)
      && Cell(s, p, "customer_id") == Cell(customers, i, "customer_id")
      && IsNum(Cell(s, p, "total_spent"))
      && AsReal(Cell(s, p, "total_spent")) == SpentBy(sales, Cell(customers, i, "customer_id"))
      && Cell(s, p, "customer_segment") == CutValue(Cell(s, p, "total_spent"), SegmentEdges, true, SegmentLabels)
      && Cell(s, p, "segmentation_date") == ToDate(Cell(customers, i, "signup_date"), Mixed, parse)
  {
    var b := Segments(sales, customers).value;
    assert SegmentState(sales, customers, parse) == SegmentDated(b, parse);
    SegmentsCustomer(sales, customers, p);
    SegmentsSpend(sales, customers, p);
    SegmentsLabels(sales, customers);
    SegmentDatedCells(b, parse, p);
  }

  /** The column selection keeps the four segmentation cells of every row. */
  lemma SegmentOutputCells(s: Frame, p: int)
    requires AirflowSegmentedSchema.HasSegmentedColumns(s) && 0 <= p < |s.rows|
    ensures Project(s, SegmentColumns).Ok?
    ensures var o := Project(s, SegmentColumns).value;
      && o.columns == SegmentColumns && |o.rows| == |s.rows| && o.index == s.index
      && AirflowSegmentedSchema.HasSegmentedColumns(o)
      && forall c :: c in SegmentColumns ==> Cell(o, p, c) == Cell(s, p, c)
  {
    assert AllIn(SegmentColumns, s.columns);
    forall c | c in SegmentColumns ensures Cell(Project(s, SegmentColumns).value, p, c) == Cell(s, p, c) {
      ProjectCell(s, SegmentColumns, p, c);
    }
  }

  /** The selected columns pass validate_post_segmented_schema exactly when every row has a positive
      customer_id, a non-negative float total_spent, one of the four labels and a date, and no
      customer_id repeats; otherwise the step raises SchemaError. */
  lemma SegmentOutputOk(s: Frame)
    requires AirflowSegmentedSchema.HasSegmentedColumns(s)
    ensures SegmentOutput(s).Ok? <==>
      && (forall p :: 0 <= p < |s.rows| ==> AirflowSegmentedSchema.GoodSegmentRow(s, p))
      && Distinct(Col(s, "customer_id"))
    ensures SegmentOutput(s).Ok? ==> SegmentOutput(s) == Project(s, SegmentColumns)
    ensures SegmentOutput(s).Err? ==> SegmentOutput(s).error == SchemaError
  {
    assert AllIn(SegmentColumns, s.columns);
    var o := Project(s, SegmentColumns).value;
    AirflowSegmentedSchema.SegmentedSpec(o);
    forall p | 0 <= p < |s.rows|
      ensures AirflowSegmentedSchema.GoodSegmentRow(o, p) <==> AirflowSegmentedSchema.GoodSegmentRow(s, p)
      ensures Col(o, "customer_id")[p] == Col(s, "customer_id")[p]
    {
      SegmentOutputCells(s, p);
    }
    assert Col(o, "customer_id") == Col(s, "customer_id");
  }

  /** Row p of segment_customers is the customer at position index[p] with a positive id, what it spent
      (a non-negative float), the band of that spend and its own signup_date, parsed. */
  lemma SegmentCustomersRow(sales: Frame, customers: Frame, parse: Parser, p: int)
    requires SegmentCustomers(sales, customers, parse).Ok?
    requires 0 <= p < |SegmentCustomers(sales, customers, parse).value.rows|
    ensures "customer_id" in sales.columns && "total_revenue" in sales.columns
    ensures AllNumOrNull(Col(sales, "total_revenue"))
    ensures "customer_id" in customers.columns && "signup_date" in customers.columns
    ensures var o := SegmentCustomers(sales, customers, parse).value;
      var i := o.index[p];
      && o.columns == SegmentColumns && 0 <= i < |customers.rows|
      && Cell(o, p, "customer_id") == Cell(customers, i, "customer_id")
      && Cell(o, p, "customer_id").Int? && Cell(o, p, "customer_id").i > 0
      && Cell(o, p, "total_spent").Real? && Cell(o, p, "total_spent").r >= 0.0
      && Cell(o, p, "total_spent").r == SpentBy(sales, Cell(customers, i, "customer_id"))
      && Cell(o, p, "customer_segment") == CutValue(Cell(o, p, "total_spent"), SegmentEdges, true, SegmentLabels)
      && Cell(o, p, "customer_segment") != Null
      && Cell(o, p, "segmentation_date").Date?
      && Cell(o, p, "segmentation_date") == ToDate(Cell(customers, i, "signup_date"), Mixed, parse)
  {
    var s := SegmentState(sales, customers, parse).value;
    assert SegmentCustomers(sales, customers, parse) == SegmentOutput(s);
    SegmentRow(sales, customers, parse, p);
    SegmentOutputOk(s);
    SegmentOutputCells(s, p);
    assert AirflowSegmentedSchema.GoodSegmentRow(s, p);
  }

  /** With one spending row per customer_id, a customer with a spend is some Buyers row p, at the
      position index[p] of a customer row equal to its own. */
  lemma BuyerKeptAt(customers: Frame, spent: Frame, i: int, j: int) returns (p: int)
    requires spent.columns == ["customer_id", "total_spent"]
    requires forall j, k :: 0 <= j < k < |spent.rows| ==> spent.rows[j][0] != spent.rows[k][0]
    requires "customer_id" in customers.columns && "total_spent" !in customers.columns
    requires 0 <= i < |customers.rows| && 0 <= j < |spent.rows|
    requires spent.rows[j][0] == Cell(customers, i, "customer_id") && spent.rows[j][1] != Null
    ensures Buyers(customers, spent).Ok?
    ensures var d := Buyers(customers, spent).value;
      0 <= p < |d.rows| && 0 <= d.index[p] < |customers.rows| && customers.rows[d.index[p]] == customers.rows[i]
  {
    BuyersKept(customers, spent, i, j);
    var d := Buyers(customers, spent).value;
    p :| 0 <= p < |d.rows| && d.rows[p] == customers.rows[i] + [spent.rows[j][1]];
    BuyersAt(customers, spent, p);
    assert d.rows[p][..|customers.columns|] == customers.rows[i];
  }

  /** Every customer with a sale is among the banded buyers: some row p holds that customer's cells. */
  lemma SegmentsCover(sales: Frame, customers: Frame, i: int, k: int) returns (p: int)
    requires Segments(sales, customers).Ok?
    requires "customer_id" in sales.columns && "customer_id" in customers.columns
    requires 0 <= i < |customers.rows| && 0 <= k < |sales.rows|
    requires Cell(sales, k, "customer_id") == Cell(customers, i, "customer_id") != Null
    ensures var b := Segments(sales, customers).value;
      0 <= p < |b.rows| && 0 <= b.index[p] < |customers.rows| && customers.rows[b.index[p]] == customers.rows[i]
  {
    var spent := Spending(sales).value;
    SpendingCovers(sales);
    SpendingTotals(sales);
    SpendingDistinct(sales);
    SegmentsOk(sales, customers);
    var j :| 0 <= j < |spent.rows| && spent.rows[j][0] == Cell(sales, k, "customer_id");
    p := BuyerKeptAt(customers, spent, i, j);
    assert Segments(sales, customers) == Banded(Buyers(customers, spent).value);
  }

  /** Every customer with a sale gets a row up to the column selection, with what it spent, the band of
      that spend and its own parsed signup_date. */
  lemma SegmentStateCovers(sales: Frame, customers: Frame, parse: Parser, i: int, k: int) returns (p: int)
    requires SegmentState(sales, customers, parse).Ok?
    requires "customer_id" in sales.columns && "customer_id" in customers.columns
    requires 0 <= i < |customers.rows| && 0 <= k < |sales.rows|
    requires Cell(sales, k, "customer_id") == Cell(customers, i, "customer_id") != Null
    ensures "total_revenue" in sales.columns && AllNumOrNull(Col(sales, "total_revenue"))
    ensures "signup_date" in customers.columns
    ensures var s := SegmentState(sales, customers, parse).value;
      && 0 <= p < |s.rows| && AirflowSegmentedSchema.HasSegmentedColumns(s)
      && Cell(s, p, "customer_id") == Cell(customers, i, "customer_id")
      && IsNum(Cell(s, p, "total_spent"))
      && AsReal(Cell(s, p, "total_spent")) == SpentBy(sales, Cell(customers, i, "customer_id"))
      && Cell(s, p, "customer_segment") == CutValue(Cell(s, p, "total_spent"), SegmentEdges, true, SegmentLabels)
      && Cell(s, p, "segmentation_date") == ToDate(Cell(customers, i, "signup_date"), Mixed, parse)
  {
    var b := Segments(sales, customers).value;
    assert SegmentState(sales, customers, parse) == SegmentDated(b, parse);
    p := SegmentsCover(sales, customers, i, k);
    SegmentRow(sales, customers, parse, p);
  }

  /** Every customer with a sale is in the output of segment_customers, with what it spent, the band of
      that spend and its own signup_date. */
  lemma SegmentCustomersCovers(sales: Frame, customers: Frame, parse: Parser, i: int, k: int) returns (p: int)
    requires SegmentCustomers(sales, customers, parse).Ok?
    requires "customer_id" in sales.columns && "customer_id" in customers.columns
    requires 0 <= i < |customers.rows| && 0 <= k < |sales.rows|
    requires Cell(sales, k, "customer_id") == Cell(customers, i, "customer_id") != Null
    ensures "total_revenue" in sales.columns && AllNumOrNull(Col(sales, "total_revenue"))
    ensures "signup_date" in customers.columns
    ensures var o := SegmentCustomers(sales, customers, parse).value;
      && 0 <= p < |o.rows| && o.columns == SegmentColumns
      && Cell(o, p, "customer_id") == Cell(customers, i, "customer_id")
      && Cell(o, p, "total_spent").Real?
      && Cell(o, p, "total_spent").r == SpentBy(sales, Cell(customers, i, "customer_id"))
      && Cell(o, p, "customer_segment") == CutValue(Cell(o, p, "total_spent"), SegmentEdges, true, SegmentLabels)
      && Cell(o, p, "segmentation_date") == ToDate(Cell(customers, i, "signup_date"), Mixed, parse)
  {
    var s := SegmentState(sales, customers, parse).value;
    assert SegmentCustomers(sales, customers, parse) == SegmentOutput(s);
    p := SegmentStateCovers(sales, customers, parse, i, k);
    SegmentOutputOk(s);
    SegmentOutputCells(s, p);
    assert AirflowSegmentedSchema.GoodSegmentRow(s, p);
  }

  /** A customer with sales that add up to 0 or less falls in no band, and one whose signup_date does not
      parse gets no date; either makes segment_customers raise SchemaError. */
  lemma UnsegmentedCustomerRejected(sales: Frame, customers: Frame, parse: Parser, i: int, k: int)
    requires SegmentState(sales, customers, parse).Ok?
    requires "customer_id" in sales.columns && "total_revenue" in sales.columns
    requires AllNumOrNull(Col(sales, "total_revenue"))
    requires "customer_id" in customers.columns && "signup_date" in customers.columns
    requires 0 <= i < |customers.rows| && 0 <= k < |sales.rows|
    requires Cell(sales, k, "customer_id") == Cell(customers, i, "customer_id") != Null
    requires SpentBy(sales, Cell(customers, i, "customer_id")) <= 0.0
      || ToDate(Cell(customers, i, "signup_date"), Mixed, parse) == Null
    ensures SegmentCustomers(sales, customers, parse) == Err(SchemaError)
  {
    var s := SegmentState(sales, customers, parse).value;
    var p := SegmentStateCovers(sales, customers, parse, i, k);
    SegmentBands(Cell(s, p, "total_spent"));
    SegmentOutputOk(s);
    assert !AirflowSegmentedSchema.GoodSegmentRow(s, p);
  }

  /** As written, row p (the customer at position index[p]) is dated with the signup_date held under the
      index label index[p] of customers_df, which need not be the same customer. */
  lemma SegmentRowAsWritten(sales: Frame, customers: Frame, parse: Parser, p: int)
    requires SegmentStateAsWritten(sales, customers, parse).Ok?
    requires 0 <= p < |SegmentStateAsWritten(sales, customers, parse).value.rows|
    ensures "customer_id" in customers.columns && "signup_date" in customers.columns
    ensures var s := SegmentStateAsWritten(sales, customers, parse).value;
      var q := s.index[p];
      && 0 <= q < |customers.rows| && AirflowSegmentedSchema.HasSegmentedColumns(s)
      && s.index == Segments(sales, customers).value.index
      && Cell(s, p, "customer_id") == Cell(customers, q, "customer_id")
      && Cell(s, p, "segmentation_date") == AtLabel(ToDates(Col(customers, "signup_date"), Mixed, parse), customers.index, q)
  {
    var b := Segments(sales, customers).value;
    assert SegmentStateAsWritten(sales, customers, parse) == SegmentDatedAsWritten(b, customers, parse);
    SegmentsCustomer(sales, customers, p);
    SegmentsSpend(sales, customers, p);
    SegmentDatedAsWrittenCells(b, customers, parse, p);
  }

  /** When each row's signup_date is that of the customer at position index[p] and customers_df is
      labelled 0..n-1 in order, the label-aligned dates are the rows' own. */
  lemma AlignedDates(b: Frame, customers: Frame, parse: Parser)
    requires customers.index == Range(|customers.rows|)
    requires "signup_date" in customers.columns && "signup_date" in b.columns
    requires forall p :: 0 <= p < |b.rows| ==>
      0 <= b.index[p] < |customers.rows| && Cell(b, p, "signup_date") == Cell(customers, b.index[p], "signup_date")
    ensures SegmentDatedAsWritten(b, customers, parse) == SegmentDated(b, parse)
  {
    var dates := ToDates(Col(customers, "signup_date"), Mixed, parse);
    var aligned := seq(|b.rows|, p requires 0 <= p < |b.rows| => AtLabel(dates, customers.index, b.index[p]));
    var own := ToDates(Col(b, "signup_date"), Mixed, parse);
    forall p | 0 <= p < |b.rows| ensures aligned[p] == own[p] {
      var q := b.index[p];
      assert customers.index[q] == q;
      assert q !in customers.index[..q] by {
        forall l | 0 <= l < q ensures customers.index[..q][l] != q {
          assert customers.index[l] == l;
        }
      }
    }
    assert aligned == own;
  }

  /** Every banded buyer keeps the signup_date of the customer at position index[p]. */
  lemma SegmentsSignup(sales: Frame, customers: Frame)
    requires Segments(sales, customers).Ok? && "signup_date" in customers.columns
    ensures var b := Segments(sales, customers).value;
      && "signup_date" in b.columns
      && forall p :: 0 <= p < |b.rows| ==>
           0 <= b.index[p] < |customers.rows| && Cell(b, p, "signup_date") == Cell(customers, b.index[p], "signup_date")
  {
    SegmentsLabels(sales, customers);
    var b := Segments(sales, customers).value;
    forall p | 0 <= p < |b.rows|
      ensures 0 <= b.index[p] < |customers.rows| && Cell(b, p, "signup_date") == Cell(customers, b.index[p], "signup_date")
    {
      SegmentsCustomer(sales, customers, p);
    }
  }

  /** On a customers_df labelled 0..n-1 in order (as read, before any row is dropped), the label-aligned
      dates are each customer's own, and segment_customers as written agrees with the per-row reading. */
  lemma SegmentAlignedAgrees(sales: Frame, customers: Frame, parse: Parser)
    requires customers.index == Range(|customers.rows|)
    ensures SegmentCustomersAsWritten(sales, customers, parse) == SegmentCustomers(sales, customers, parse)
  {
    if Segments(sales, customers).Ok? {
      DatedAligned(sales, customers, parse, Segments(sales, customers).value);
    }
  }

  /** The dating step of the two readings agrees on the buyers of a customers_df labelled 0..n-1 in order. */
  lemma DatedAligned(sales: Frame, customers: Frame, parse: Parser, b: Frame)
    requires customers.index == Range(|customers.rows|)
    requires Segments(sales, customers) == Ok(b)
    ensures SegmentDatedAsWritten(b, customers, parse) == SegmentDated(b, parse)
  {
    if "signup_date" in customers.columns {
      SignupAligned(sales, customers, parse, b);
    } else {
      SegmentsLabels(sales, customers);
      assert "signup_date" !in b.columns;
    }
  }

  /** DatedAligned when customers_df has a signup_date column: each buyer carries its own customer's
      signup_date, which is also the one under its label. */
  lemma SignupAligned(sales: Frame, customers: Frame, parse: Parser, b: Frame)
    requires customers.index == Range(|customers.rows|) && "signup_date" in customers.columns
    requires Segments(sales, customers) == Ok(b)
    ensures SegmentDatedAsWritten(b, customers, parse) == SegmentDated(b, parse)
  {
    SegmentsSignup(sales, customers);
    AlignedDates(b, customers, parse);
  }

  /** When every index label of customers_df is at least its length (a cleaned customers_df whose first
      rows were dropped), a customer with a sale finds no signup_date under its merge label, and
      segment_customers as written raises SchemaError. */
  lemma SegmentationDateMisaligned(sales: Frame, customers: Frame, parse: Parser, i: int, k: int)
    requires SegmentStateAsWritten(sales, customers, parse).Ok?
    requires "customer_id" in sales.columns && "customer_id" in customers.columns
    requires 0 <= i < |customers.rows| && 0 <= k < |sales.rows|
    requires Cell(sales, k, "customer_id") == Cell(customers, i, "customer_id") != Null
    requires forall l :: 0 <= l < |customers.index| ==> customers.index[l] >= |customers.rows|
    ensures SegmentCustomersAsWritten(sales, customers, parse) == Err(SchemaError)
  {
    SegmentStateOk(sales, customers, parse);
    SegmentsOk(sales, customers);
    var s := SegmentStateAsWritten(sales, customers, parse).value;
    var p := SegmentsCover(sales, customers, i, k);
    SegmentRowAsWritten(sales, customers, parse, p);
    SegmentOutputOk(s);
    assert !AirflowSegmentedSchema.GoodSegmentRow(s, p);
  }

  // ----- detect_sales_anomalies -----

  const AnomalyColumns: seq<string> := ["order_id", "customer_id", "product_id", "order_date", "total_revenue"]

  /** The sales rows whose total_revenue is a number strictly below the threshold, projected to the
      five anomaly columns. */
  function AnomalyRows(sales: Frame, threshold: real): (r: Result<Frame>)
  {
    if "total_revenue" !in sales.columns then Err(KeyError("total_revenue"))
    else match LessMask(Col(sales, "total_revenue"), threshold)
      case Err(e) => Err(e)
      case Ok(mask) => Project(Where(sales, mask), AnomalyColumns)
  }

  /** detect_sales_anomalies, with the threshold (mean - 3 std of total_revenue) given. */
  function DetectSalesAnomalies(sales: Frame, threshold: real): (r: Result<Frame>)
  {
    match AnomalyRows(sales, threshold)
    case Err(e) => Err(e)
    case Ok(a) => AirflowAnomaliesSchema.ValidateAnomalies(a)
  }

  /** Sales row i is below the threshold. */
  predicate Below(sales: Frame, i: int, threshold: real)
    requires 0 <= i < |sales.rows| && "total_revenue" in sales.columns
  {
    IsNum(Cell(sales, i, "total_revenue")) && AsReal(Cell(sales, i, "total_revenue")) < threshold
  }

  /** Result row p is sales row i cut down to the anomaly columns. */
  predicate ProjectedFrom(a: Frame, p: int, sales: Frame, i: int)
    requires 0 <= p < |a.rows| && 0 <= i < |sales.rows|
  {
    forall c :: c in AnomalyColumns ==> c in a.columns && c in sales.columns && Cell(a, p, c) == Cell(sales, i, c)
  }

  /** The sales rows below the threshold, by position, ascending. */
  function AnomalySources(sales: Frame, threshold: real): seq<int>
    requires "total_revenue" in sales.columns
  {
    Kept(seq(|sales.rows|, i requires 0 <= i < |sales.rows| => Below(sales, i, threshold)))
  }

  /** The anomalies are exactly the rows strictly below the threshold, in input order, cut down to the
      five columns: result row p is sales row AnomalySources[p], those positions ascend, and every row
      below the threshold is among them. */
  lemma AnomalyRowsSpec(sales: Frame, threshold: real)
    requires AnomalyRows(sales, threshold).Ok?
    ensures "total_revenue" in sales.columns
    ensures var a := AnomalyRows(sales, threshold).value;
      var src := AnomalySources(sales, threshold);
      && a.columns == AnomalyColumns && |a.rows| == |src|
      && (forall p :: 0 <= p < |src| ==> 0 <= src[p] < |sales.rows| && Below(sales, src[p], threshold) && ProjectedFrom(a, p, sales, src[p]))
      && (forall p, q :: 0 <= p < q < |src| ==> src[p] < src[q])
      && (forall i :: 0 <= i < |sales.rows| && Below(sales, i, threshold) ==> i in src)
  {
    var mask := LessMask(Col(sales, "total_revenue"), threshold).value;
    AnomalyMask(sales, threshold);
    var a := AnomalyRows(sales, threshold).value;
    assert Project(Where(sales, mask), AnomalyColumns) == Ok(a);
    KeptSpec(sales.rows, mask);
    ProjectedRows(sales, mask, a);
  }

  /** The less-than mask over total_revenue flags exactly the rows Below the threshold. */
  lemma AnomalyMask(sales: Frame, threshold: real)
    requires "total_revenue" in sales.columns && LessMask(Col(sales, "total_revenue"), threshold).Ok?
    ensures LessMask(Col(sales, "total_revenue"), threshold).value
      == seq(|sales.rows|, i requires 0 <= i < |sales.rows| => Below(sales, i, threshold))
  {
    var mask := LessMask(Col(sales, "total_revenue"), threshold).value;
    forall i | 0 <= i < |sales.rows| ensures mask[i] == Below(sales, i, threshold) {
      assert Col(sales, "total_revenue")[i] == Cell(sales, i, "total_revenue");
    }
  }

  /** Projecting the masked rows onto the anomaly columns: result row p is sales row Kept(mask)[p]. */
  lemma ProjectedRows(sales: Frame, mask: seq<bool>, a: Frame)
    requires |mask| == |sales.rows| && Project(Where(sales, mask), AnomalyColumns) == Ok(a)
    requires |Kept(mask)| == |Pick(sales.rows, mask)|
    requires forall p :: 0 <= p < |Kept(mask)| ==> Pick(sales.rows, mask)[p] == sales.rows[Kept(mask)[p]]
    ensures a.columns == AnomalyColumns && |a.rows| == |Kept(mask)|
    ensures forall p :: 0 <= p < |Kept(mask)| ==> 0 <= p < |a.rows| && ProjectedFrom(a, p, sales, Kept(mask)[p])
  {
    forall p | 0 <= p < |Kept(mask)| ensures 0 <= p < |a.rows| && ProjectedFrom(a, p, sales, Kept(mask)[p]) {
      RowsFrom(sales, mask, a, p, Kept(mask)[p]);
    }
  }

  /** The cleaned sales table has integer order ids, but the anomaly schema declares them strings: as
      soon as one validated sale falls below the threshold, detect_sales_anomalies raises. */
  lemma ValidatedSalesAnomalyRejected(sales: Frame, threshold: real, i: int)
    requires AirflowSalesSchema.ValidatePostSales(sales).Ok?
    requires "total_revenue" in sales.columns && 0 <= i < |sales.rows| && Below(sales, i, threshold)
    ensures DetectSalesAnomalies(sales, threshold) == Err(SchemaError)
  {
    AirflowSalesSchema.PostSalesSpec(sales);
    assert AllNumOrNull(Col(sales, "total_revenue")) by {
      forall k | 0 <= k < |sales.rows| ensures NumOrNull(Col(sales, "total_revenue")[k]) {
        assert AirflowSalesSchema.GoodSalesRow(sales, k);
      }
    }
    assert AllIn(AnomalyColumns, sales.columns);
    assert AnomalyRows(sales, threshold).Ok?;
    AnomalyRowsSpec(sales, threshold);
    var a := AnomalyRows(sales, threshold).value;
    var src := AnomalySources(sales, threshold);
    var p :| 0 <= p < |src| && src[p] == i;
    assert ProjectedFrom(a, p, sales, i);
    assert AirflowSalesSchema.GoodSalesRow(sales, i);
    AirflowAnomaliesSchema.IntegerOrderIdRejected(a, p);
  }

  /** A result row picked from sales row i is its projection, and row i passed the mask. */
  lemma RowsFrom(sales: Frame, mask: seq<bool>, a: Frame, p: int, i: int)
    requires |mask| == |sales.rows| && 0 <= p < |Where(sales, mask).rows| && 0 <= i < |sales.rows|
    requires Where(sales, mask).rows[p] == sales.rows[i]
    requires Project(Where(sales, mask), AnomalyColumns) == Ok(a)
    ensures 0 <= p < |a.rows| && ProjectedFrom(a, p, sales, i)
  {
    var w := Where(sales, mask);
    forall c | c in AnomalyColumns ensures c in a.columns && c in sales.columns && Cell(a, p, c) == Cell(sales, i, c) {
      ProjectCell(w, AnomalyColumns, p, c);
    }
  }

  // ----- forecast_sales -----

  const ForecastColumns: seq<string> := ["order_date", "total_revenue", "sales_forecast"]

  /** The state forecast_sales leaves its argument in: order_date parsed, sales_forecast the trailing
      7-row mean of total_revenue, and (after set_index / reset_index) order_date first, rows relabelled 0..n-1. */
  function Forecasted(t: Frame, parse: Parser): (r: Result<Frame>)
  {
    if "order_date" !in t.columns then Err(KeyError("order_date"))
    else
      var u := Assign(t, "order_date", ToDates(Col(t, "order_date"), Mixed, parse));
      if "total_revenue" !in u.columns then Err(KeyError("total_revenue"))
      else match RollingMean(Col(u, "total_revenue"), 7)
        case Err(e) => Err(e)
        case Ok(f) => Ok(MoveToFront(Assign(u, "sales_forecast", f), "order_date"))
  }

  /** The three forecast columns of the forecast state, validated. */
  function ForecastOutput(s: Frame): (r: Result<Frame>)
  {
    match Project(s, ForecastColumns)
    case Err(e) => Err(e)
    case Ok(p) => AirflowForecastSchema.ValidateForecast(p)
  }

  /** forecast_sales(sales_df). The set_index("order_date") ... reset_index() pair is one step here:
      the only write between them adds a column, so where order_date is kept meanwhile does not matter. */
  method ForecastSales(df: DataFrame, parse: Parser) returns (r: Result<Frame>)
    requires df.Valid()
    modifies df
    ensures df.Valid()
    ensures var s := Forecasted(old(df.Snapshot()), parse);
      && (s.Ok? ==> df.Snapshot() == s.value && r == ForecastOutput(s.value))
      && (s.Err? ==> r == Err(s.error))
  {
    if "order_date" !in df.columns {
      return Err(KeyError("order_date"));
    }
    df.SetColumn("order_date", ToDates(Col(df.Snapshot(), "order_date"), Mixed, parse));
    if "total_revenue" !in df.columns {
      return Err(KeyError("total_revenue"));
    }
    var forecast := RollingMean(Col(df.Snapshot(), "total_revenue"), 7);
    if forecast.Err? {
      return Err(forecast.error);
    }
    df.SetColumn("sales_forecast", forecast.value);
    df.IndexRoundTrip("order_date");
    r := ForecastOutput(df.Snapshot());
  }

  /** The forecast state has the input's rows relabelled 0..n-1, order_date first, and the forecast columns. */
  lemma ForecastedShape(t: Frame, parse: Parser)
    requires Forecasted(t, parse).Ok?
    ensures "order_date" in t.columns && "total_revenue" in t.columns && AllNumOrNull(Col(t, "total_revenue"))
    ensures var s := Forecasted(t, parse).value;
      && s.columns[0] == "order_date" && s.index == Range(|t.rows|) && |s.rows| == |t.rows|
      && "order_date" in s.columns && "total_revenue" in s.columns && "sales_forecast" in s.columns
  {
    var dates := ToDates(Col(t, "order_date"), Mixed, parse);
    var u := Assign(t, "order_date", dates);
    assert Col(u, "total_revenue") == Col(t, "total_revenue") by {
      forall i | 0 <= i < |t.rows| ensures Col(u, "total_revenue")[i] == Col(t, "total_revenue")[i] {
        AssignCell(t, "order_date", dates, "total_revenue", i);
      }
    }
  }

  /** Row i of the forecast state: its own parsed order_date, its total_revenue, and the mean of
      total_revenue over rows max(0, i-6)..i. */
  predicate ForecastRow(t: Frame, s: Frame, parse: Parser, i: int)
    requires 0 <= i < |t.rows| == |s.rows|
    requires "order_date" in t.columns && "total_revenue" in t.columns && AllNumOrNull(Col(t, "total_revenue"))
    requires "order_date" in s.columns && "total_revenue" in s.columns && "sales_forecast" in s.columns
  {
    && Cell(s, i, "order_date") == ToDate(Cell(t, i, "order_date"), Mixed, parse)
    && Cell(s, i, "total_revenue") == Cell(t, i, "total_revenue")
    && Cell(s, i, "sales_forecast") == Mean(Window(Col(t, "total_revenue"), i, 7))
  }

  /** Each row of the forecast state is a ForecastRow of the input. */
  lemma ForecastedRow(t: Frame, parse: Parser, i: int)
    requires Forecasted(t, parse).Ok? && 0 <= i < |t.rows|
    ensures "order_date" in t.columns && "total_revenue" in t.columns && AllNumOrNull(Col(t, "total_revenue"))
    ensures var s := Forecasted(t, parse).value;
      && |s.rows| == |t.rows|
      && "order_date" in s.columns && "total_revenue" in s.columns && "sales_forecast" in s.columns
      && ForecastRow(t, s, parse, i)
  {
    ForecastedShape(t, parse);
    var dates := ToDates(Col(t, "order_date"), Mixed, parse);
    var u := Assign(t, "order_date", dates);
    assert Col(u, "total_revenue") == Col(t, "total_revenue") by {
      forall k | 0 <= k < |t.rows| ensures Col(u, "total_revenue")[k] == Col(t, "total_revenue")[k] {
        AssignCell(t, "order_date", dates, "total_revenue", k);
      }
    }
    var f := RollingMean(Col(u, "total_revenue"), 7).value;
    var v := Assign(u, "sales_forecast", f);
    assert Forecasted(t, parse).value == MoveToFront(v, "order_date");
    AssignCell(t, "order_date", dates, "order_date", i);
    AssignCell(t, "order_date", dates, "total_revenue", i);
    AssignCell(u, "sales_forecast", f, "order_date", i);
    AssignCell(u, "sales_forecast", f, "total_revenue", i);
    AssignCell(u, "sales_forecast", f, "sales_forecast", i);
    MoveToFrontCell(v, "order_date", i, "order_date");
    MoveToFrontCell(v, "order_date", i, "total_revenue");
    MoveToFrontCell(v, "order_date", i, "sales_forecast");
  }

  /** The forecast keeps every row in place: same count, order_date the parsed cell, total_revenue
      unchanged, and sales_forecast[i] the mean of total_revenue over rows max(0, i-6)..i. */
  lemma ForecastedSpec(t: Frame, parse: Parser)
    requires Forecasted(t, parse).Ok?
    ensures "order_date" in t.columns && "total_revenue" in t.columns && AllNumOrNull(Col(t, "total_revenue"))
    ensures var s := Forecasted(t, parse).value;
      && s.columns[0] == "order_date" && s.index == Range(|t.rows|) && |s.rows| == |t.rows|
      && "order_date" in s.columns && "total_revenue" in s.columns && "sales_forecast" in s.columns
      && forall i :: 0 <= i < |t.rows| ==> ForecastRow(t, s, parse, i)
  {
    ForecastedShape(t, parse);
    forall i | 0 <= i < |t.rows| ensures ForecastRow(t, Forecasted(t, parse).value, parse, i) {
      ForecastedRow(t, parse, i);
    }
  }

  /** The forecast state exists once both columns are there and total_revenue is numeric. */
  lemma ForecastedOk(t: Frame, parse: Parser)
    requires "order_date" in t.columns && "total_revenue" in t.columns && AllNumOrNull(Col(t, "total_revenue"))
    ensures Forecasted(t, parse).Ok?
  {
    var dates := ToDates(Col(t, "order_date"), Mixed, parse);
    var u := Assign(t, "order_date", dates);
    assert Col(u, "total_revenue") == Col(t, "total_revenue") by {
      forall i | 0 <= i < |t.rows| ensures Col(u, "total_revenue")[i] == Col(t, "total_revenue")[i] {
        AssignCell(t, "order_date", dates, "total_revenue", i);
      }
    }
  }

  /** A trailing window over non-negative floats has a non-negative float mean. */
  lemma WindowMeanNonNegative(xs: seq<Value>, i: int)
    requires 0 <= i < |xs| && forall k :: 0 <= k < |xs| ==> xs[k].Real? && xs[k].r >= 0.0
    ensures AllNumOrNull(Window(xs, i, 7))
    ensures Mean(Window(xs, i, 7)).Real? && Mean(Window(xs, i, 7)).r >= 0.0
  {
    var win := Window(xs, i, 7);
    assert win[|win| - 1] == xs[i];
    CountNumLast(win);
    assert forall k :: 0 <= k < |win| ==> win[k] in xs;
    MeanNonNegative(win);
  }

  /** A forecast row whose order_date parses, over non-negative float revenues, is a good forecast row. */
  lemma ForecastRowAccepted(t: Frame, parse: Parser, i: int)
    requires Forecasted(t, parse).Ok? && 0 <= i < |t.rows| && "order_date" in t.columns && "total_revenue" in t.columns
    requires ToDate(Cell(t, i, "order_date"), Mixed, parse).Date?
    requires forall k :: 0 <= k < |t.rows| ==> Cell(t, k, "total_revenue").Real? && Cell(t, k, "total_revenue").r >= 0.0
    ensures Project(Forecasted(t, parse).value, ForecastColumns).Ok?
    ensures var out := Project(Forecasted(t, parse).value, ForecastColumns).value;
      && 0 <= i < |out.rows| && AirflowForecastSchema.HasForecastColumns(out)
      && AirflowForecastSchema.GoodForecastRow(out, i)
  {
    var xs := Col(t, "total_revenue");
    var mean := Mean(Window(xs, i, 7));
    assert mean.Real? && mean.r >= 0.0 by {
      WindowMeanNonNegative(xs, i);
    }
    ForecastedRow(t, parse, i);
    var s := Forecasted(t, parse).value;
    assert AllIn(ForecastColumns, s.columns);
    ProjectCell(s, ForecastColumns, i, "order_date");
    var out := Project(s, ForecastColumns).value;
    assert Cell(out, i, "total_revenue") == Cell(s, i, "total_revenue") && Cell(out, i, "sales_forecast") == mean by {
      ProjectCell(s, ForecastColumns, i, "total_revenue");
      ProjectCell(s, ForecastColumns, i, "sales_forecast");
    }
  }

  /** When every order_date parses and every total_revenue is a non-negative float, the forecast passes
      its schema: each window ends in a number, so its mean exists and is non-negative. */
  lemma ForecastAccepted(t: Frame, parse: Parser)
    requires "order_date" in t.columns && "total_revenue" in t.columns
    requires forall i :: 0 <= i < |t.rows| ==> ToDate(Cell(t, i, "order_date"), Mixed, parse).Date?
    requires forall i :: 0 <= i < |t.rows| ==> Cell(t, i, "total_revenue").Real? && Cell(t, i, "total_revenue").r >= 0.0
    ensures Forecasted(t, parse).Ok? && ForecastOutput(Forecasted(t, parse).value).Ok?
  {
    ForecastedOk(t, parse);
    ForecastedShape(t, parse);
    var s := Forecasted(t, parse).value;
    assert AllIn(ForecastColumns, s.columns);
    var out := Project(s, ForecastColumns).value;
    forall i | 0 <= i < |out.rows| ensures AirflowForecastSchema.GoodForecastRow(out, i) {
      ForecastRowAccepted(t, parse, i);
    }
    AirflowForecastSchema.ForecastSpec(out);
  }

  /** A row whose order_date does not parse makes the forecast fail its schema. */
  lemma UnparsableForecastDateRejected(t: Frame, parse: Parser, i: int)
    requires Forecasted(t, parse).Ok? && 0 <= i < |t.rows| && "order_date" in t.columns
    requires ToDate(Cell(t, i, "order_date"), Mixed, parse) == Null
    ensures ForecastOutput(Forecasted(t, parse).value) == Err(SchemaError)
  {
    ForecastedShape(t, parse);
    ForecastedRow(t, parse, i);
    var s := Forecasted(t, parse).value;
    assert AllIn(ForecastColumns, s.columns);
    var out := Project(s, ForecastColumns).value;
    ProjectCell(s, ForecastColumns, i, "order_date");
    AirflowForecastSchema.ForecastSpec(out);
    assert !AirflowForecastSchema.GoodForecastRow(out, i);
  }
}
