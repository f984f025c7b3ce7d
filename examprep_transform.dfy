/**
 * The transform step of the exam-preparation pipeline. transform_sales_data and
 * transform_products_data relabel the frame they are given and rewrite text columns in place, then
 * continue on filtered copies and validate the result; the analytic steps build new frames: the inner
 * join of sales and products, the enriched frame (sales buckets and hours), per-quarter category
 * sales, and per-region revenue concentration.
 *
 * The input validators are used in their advisory reading (they hand the frame back either way); see
 * Schemas.PreValidate and Schemas.AdvisoryPreValidate.
 */
module ExamPrepTransform {
  import opened Results
  import opened Text
  import opened Frames
  import opened Grouping
  import opened DataFrames
  import opened Schemas
  import ExamPrepSalesSchema
  import ExamPrepProductsSchema
  import ExamPrepSeasonalSchema
  import ExamPrepRevenueSchema

  // ----- transform_sales_data -----

  /** `.str.strip().str.lower()` on one cell (region, category). */
  function StripLower(s: string): string {
    Lower(Strip(s))
  }

  /** The second statement, on the relabelled frame u: region stripped and lower-cased in place (a cell
      that is not text becomes missing); a region column without text has no `.str` accessor. */
  function Normalized(u: Frame): (r: Result<Frame>)
  {
    if "region" !in u.columns then Err(KeyError("region"))
    else if !TextColumn(Col(u, "region")) then Err(AttributeError(NoStrAccessor))
    else Ok(Assign(u, "region", StrApply(Col(u, "region"), StripLower)))
  }

  /** dropna(subset=["region", "timestamp"]), then the rows with price > 0 and quantity > 0. */
  function SalesFiltered(n: Frame): (r: Result<Frame>)
  {
    match DropNaSubset(n, ["region", "timestamp"])
    case Err(x) => Err(x)
    case Ok(e) =>
      if "price" !in e.columns then Err(KeyError("price"))
      else match GreaterMask(Col(e, "price"), 0.0)
        case Err(x) => Err(x)
        case Ok(pm) =>
          if "quantity" !in e.columns then Err(KeyError("quantity"))
          else match GreaterMask(Col(e, "quantity"), 0.0)
            case Err(x) => Err(x)
            case Ok(qm) => Ok(Where(e, And(pm, qm)))
  }

  /** The timestamp column parsed in the mixed format; a cell that does not parse becomes missing. */
  function Parsed(f: Frame, parse: Parser): (r: Frame)
    requires "timestamp" in f.columns
  {
    Assign(f, "timestamp", ToDates(Col(f, "timestamp"), Mixed, parse))
  }

  /** timestamp parsed, then total_sales = quantity * price. */
  function SalesStamped(f: Frame, parse: Parser): (r: Result<Frame>)
  {
    if "timestamp" !in f.columns then Err(KeyError("timestamp"))
    else
      var v := Parsed(f, parse);
      if "quantity" !in v.columns then Err(KeyError("quantity"))
      else if "price" !in v.columns then Err(KeyError("price"))
      else match MulCols(Col(v, "quantity"), Col(v, "price"))
        case Err(x) => Err(x)
        case Ok(sales) => Ok(Assign(v, "total_sales", sales))
  }

  /** Everything after the relabelling, up to the output validator. */
  function SalesProcessed(u: Frame, parse: Parser): (r: Result<Frame>)
  {
    match Normalized(u)
    case Err(x) => Err(x)
    case Ok(n) =>
      match SalesFiltered(n)
      case Err(x) => Err(x)
      case Ok(f) => SalesStamped(f, parse)
  }

  /** transform_sales_data(sales_df): the validated frame, or the exception raised. */
  function TransformSalesData(t: Frame, parse: Parser): (r: Result<Frame>)
  {
    match SalesProcessed(Relabel(t, TrimLabel), parse)
    case Err(x) => Err(x)
    case Ok(w) => ExamPrepSalesSchema.ValidateOutputSales(w)
  }

  /** transform_sales_data(sales_df): the relabelling and the region rewrite change the caller's frame;
      the filters work on copies. */
  method TransformSales(df: DataFrame, parse: Parser) returns (r: Result<Frame>)
    requires df.Valid()
    modifies df
    ensures df.Valid()
    ensures r == TransformSalesData(old(df.Snapshot()), parse)
    ensures var u := Relabel(old(df.Snapshot()), TrimLabel);
      df.Snapshot() == if Normalized(u).Ok? then Normalized(u).value else u
  {
    var checked := AdvisoryPreValidate(ExamPrepSalesSchema.InputSales(), df.Snapshot());
    df.RelabelWith(TrimLabel);
    if "region" !in df.columns {
      return Err(KeyError("region"));
    }
    if !TextColumn(Col(df.Snapshot(), "region")) {
      return Err(AttributeError(NoStrAccessor));
    }
    df.SetColumn("region", StrApply(Col(df.Snapshot(), "region"), StripLower));
    var f := SalesFiltered(df.Snapshot());
    if f.Err? {
      return Err(f.error);
    }
    var w := SalesStamped(f.value, parse);
    if w.Err? {
      return Err(w.error);
    }
    r := ExamPrepSalesSchema.ValidateOutputSales(w.value);
  }

  /** The four columns the filters read. */
  predicate HasFilterColumns(u: Frame) {
    "region" in u.columns && "timestamp" in u.columns && "price" in u.columns && "quantity" in u.columns
  }

  /** Row i of the relabelled frame survives dropna: its region is text (so stays present once
      normalised) and its timestamp is present. */
  predicate Listed(u: Frame, i: int)
    requires 0 <= i < |u.rows| && HasFilterColumns(u)
  {
    Cell(u, i, "region").Str? && Cell(u, i, "timestamp") != Null
  }

  /** The comparisons with 0 do not raise on row i: a listed row has a number or a missing cell as
      price and as quantity. */
  predicate Comparable(u: Frame, i: int)
    requires 0 <= i < |u.rows| && HasFilterColumns(u)
  {
    Listed(u, i) ==> NumOrNull(Cell(u, i, "price")) && NumOrNull(Cell(u, i, "quantity"))
  }

  /** Row i reaches the output: listed, with a positive price and a positive quantity. */
  predicate Sold(u: Frame, i: int)
    requires 0 <= i < |u.rows| && HasFilterColumns(u)
  {
    Listed(u, i) && Positive(Cell(u, i, "price")) && Positive(Cell(u, i, "quantity"))
  }

  function SoldMask(u: Frame): (m: seq<bool>)
    requires HasFilterColumns(u)
    ensures |m| == |u.rows| && forall i :: 0 <= i < |u.rows| ==> m[i] == Sold(u, i)
  {
    seq(|u.rows|, i requires 0 <= i < |u.rows| => Sold(u, i))
  }

  /** Normalising region rewrites that column alone: text is stripped and lower-cased, anything else
      becomes missing. */
  lemma NormalizedCells(u: Frame)
    requires "region" in u.columns && TextColumn(Col(u, "region"))
    ensures Normalized(u).Ok?
    ensures var n := Normalized(u).value;
      && n.columns == u.columns && n.index == u.index && |n.rows| == |u.rows|
      && (forall i :: 0 <= i < |u.rows| ==>
            Cell(n, i, "region") == (if Cell(u, i, "region").Str? then Str(StripLower(Cell(u, i, "region").s)) else Null))
      && (forall i, c :: 0 <= i < |u.rows| && c in u.columns && c != "region" ==> Cell(n, i, c) == Cell(u, i, c))
  {
    var values := StrApply(Col(u, "region"), StripLower);
    AssignKeeps(u, "region", values);
  }

  function ListedMask(u: Frame): (m: seq<bool>)
    requires HasFilterColumns(u)
    ensures |m| == |u.rows| && forall i :: 0 <= i < |u.rows| ==> m[i] == Listed(u, i)
  {
    seq(|u.rows|, i requires 0 <= i < |u.rows| => Listed(u, i))
  }

  /** dropna(subset=["region", "timestamp"]) on the normalised frame keeps the Listed rows. */
  lemma DropUnlisted(u: Frame, n: Frame)
    requires HasFilterColumns(u) && Normalized(u) == Ok(n)
    ensures HasFilterColumns(n) && |n.rows| == |u.rows|
    ensures DropNaSubset(n, ["region", "timestamp"]) == Ok(Where(n, ListedMask(u)))
  {
    NormalizedCells(u);
    var subset := ["region", "timestamp"];
    assert subset[0] == "region" && subset[1] == "timestamp";
    var a := seq(|n.rows|, i requires 0 <= i < |n.rows| => NonNullIn(n, i, subset));
    assert a == ListedMask(u);
  }

  /** The comparisons run on the rows dropna keeps: they raise exactly when such a row has a price or a
      quantity that is neither a number nor missing. */
  lemma FilterOk(u: Frame, n: Frame)
    requires HasFilterColumns(u) && Normalized(u) == Ok(n)
    ensures SalesFiltered(n).Ok? <==> forall i :: 0 <= i < |u.rows| ==> Comparable(u, i)
    ensures SalesFiltered(n).Err? ==> SalesFiltered(n).error.TypeError?
  {
    NormalizedCells(u);
    DropUnlisted(u, n);
    var a := ListedMask(u);
    var e := Where(n, a);
    assert SalesFiltered(n).Ok? <==> AllNumOrNull(Col(e, "price")) && AllNumOrNull(Col(e, "quantity"));
    WhereNumOrNull(n, a, "price");
    WhereNumOrNull(n, a, "quantity");
    forall i | 0 <= i < |u.rows|
      ensures Comparable(u, i) <==> (a[i] ==> NumOrNull(Cell(n, i, "price"))) && (a[i] ==> NumOrNull(Cell(n, i, "quantity")))
    {
      assert Cell(n, i, "price") == Cell(u, i, "price") && Cell(n, i, "quantity") == Cell(u, i, "quantity");
    }
  }

  /** The rows the two filters keep are those of the relabelled frame that are Sold, in order. */
  lemma FilterKeeps(u: Frame, n: Frame)
    requires HasFilterColumns(u) && Normalized(u) == Ok(n) && SalesFiltered(n).Ok?
    ensures SalesFiltered(n).value == Where(n, SoldMask(u))
  {
    NormalizedCells(u);
    DropUnlisted(u, n);
    var a := ListedMask(u);
    var e := Where(n, a);
    var b := And(GreaterMask(Col(e, "price"), 0.0).value, GreaterMask(Col(e, "quantity"), 0.0).value);
    assert SalesFiltered(n).value == Where(e, b);
    var kp, kq := IndexOf(n.columns, "price"), IndexOf(n.columns, "quantity");
    PositiveMaskRows(e, b, kp, kq);
    SoldMaskRows(u, n, kp, kq);
    WhereTwice(n, a, b, row => PricedRow(kp, kq, row), SoldMask(u));
  }

  /** A row whose cells at positions kp and kq are both positive numbers. */
  predicate PricedRow(kp: nat, kq: nat, row: seq<Value>) {
    kp < |row| && kq < |row| && Positive(row[kp]) && Positive(row[kq])
  }

  /** The mask (price > 0) & (quantity > 0) over a frame holds exactly at its priced rows. */
  lemma PositiveMaskRows(e: Frame, b: seq<bool>, kp: nat, kq: nat)
    requires "price" in e.columns && "quantity" in e.columns
    requires kp == IndexOf(e.columns, "price") && kq == IndexOf(e.columns, "quantity")
    requires GreaterMask(Col(e, "price"), 0.0).Ok? && GreaterMask(Col(e, "quantity"), 0.0).Ok?
    requires b == And(GreaterMask(Col(e, "price"), 0.0).value, GreaterMask(Col(e, "quantity"), 0.0).value)
    ensures |b| == |e.rows| && forall p :: 0 <= p < |b| ==> b[p] == PricedRow(kp, kq, e.rows[p])
  {
    forall p | 0 <= p < |b| ensures b[p] == PricedRow(kp, kq, e.rows[p]) {
      assert Cell(e, p, "price") == e.rows[p][kp] && Cell(e, p, "quantity") == e.rows[p][kq];
    }
  }

  /** A row is sold exactly when it is listed and the normalised frame's row is priced. */
  lemma SoldMaskRows(u: Frame, n: Frame, kp: nat, kq: nat)
    requires HasFilterColumns(u) && Normalized(u) == Ok(n)
    requires kp == IndexOf(n.columns, "price") && kq == IndexOf(n.columns, "quantity")
    ensures |n.rows| == |u.rows|
    ensures forall i :: 0 <= i < |u.rows| ==> SoldMask(u)[i] == (ListedMask(u)[i] && PricedRow(kp, kq, n.rows[i]))
  {
    NormalizedCells(u);
    DropUnlisted(u, n);
    forall i | 0 <= i < |u.rows| ensures SoldMask(u)[i] == (ListedMask(u)[i] && PricedRow(kp, kq, n.rows[i])) {
      assert Cell(n, i, "price") == n.rows[i][kp] && Cell(n, i, "quantity") == n.rows[i][kq];
    }
  }

  /** The columns of the frame SalesStamped builds: the filtered columns, plus total_sales when new. */
  function WithTotal(cols: seq<string>): seq<string> {
    if "total_sales" in cols then cols else cols + ["total_sales"]
  }

  /** Parsing timestamp and multiplying never fail once price and quantity hold numbers or missing
      cells; the rows and index stay. */
  lemma StampedOk(f: Frame, parse: Parser)
    requires HasFilterColumns(f) && AllNumOrNull(Col(f, "price")) && AllNumOrNull(Col(f, "quantity"))
    ensures SalesStamped(f, parse).Ok?
    ensures var w := SalesStamped(f, parse).value;
      w.index == f.index && |w.rows| == |f.rows| && w.columns == WithTotal(f.columns)
  {
    var v := Assign(f, "timestamp", ToDates(Col(f, "timestamp"), Mixed, parse));
    AssignKeeps(f, "timestamp", ToDates(Col(f, "timestamp"), Mixed, parse));
    assert Col(v, "price") == Col(f, "price") && Col(v, "quantity") == Col(f, "quantity");
  }

  /** Row p after SalesStamped: timestamp parsed, total_sales the product quantity * price, every other
      cell kept. */
  lemma StampedRow(f: Frame, parse: Parser, p: int)
    requires HasFilterColumns(f) && SalesStamped(f, parse).Ok? && 0 <= p < |f.rows|
    ensures var w := SalesStamped(f, parse).value;
      && |w.rows| == |f.rows| && "total_sales" in w.columns && (forall c :: c in f.columns ==> c in w.columns)
      && NumOrNull(Cell(f, p, "quantity")) && NumOrNull(Cell(f, p, "price"))
      && Cell(w, p, "timestamp") == ToDate(Cell(f, p, "timestamp"), Mixed, parse)
      && Cell(w, p, "total_sales") == Times(Cell(f, p, "quantity"), Cell(f, p, "price"))
      && forall c :: c in f.columns && c != "timestamp" && c != "total_sales" ==> Cell(w, p, c) == Cell(f, p, c)
  {
    var dates := ToDates(Col(f, "timestamp"), Mixed, parse);
    var v := Assign(f, "timestamp", dates);
    var sales := MulCols(Col(v, "quantity"), Col(v, "price")).value;
    var w := Assign(v, "total_sales", sales);
    assert w == SalesStamped(f, parse).value;
    AssignKeeps(f, "timestamp", dates);
    AssignKeeps(v, "total_sales", sales);
    assert Col(v, "quantity")[p] == Cell(f, p, "quantity") && Col(v, "price")[p] == Cell(f, p, "price");
  }

  /** Row p of the filtered frame is row Kept(SoldMask(u))[p] of the relabelled frame, a Sold row, with
      its region normalised and every other cell as it was. */
  lemma FilteredRow(u: Frame, n: Frame, p: int)
    requires HasFilterColumns(u) && Normalized(u) == Ok(n) && SalesFiltered(n).Ok?
    requires 0 <= p < |SalesFiltered(n).value.rows|
    ensures var f := SalesFiltered(n).value; var m := SoldMask(u);
      && |Kept(m)| == |f.rows| && 0 <= Kept(m)[p] < |u.rows| && Sold(u, Kept(m)[p])
      && f.columns == u.columns && f.index[p] == u.index[Kept(m)[p]]
      && Cell(f, p, "region") == Str(StripLower(Cell(u, Kept(m)[p], "region").s))
      && forall c :: c in u.columns && c != "region" ==> Cell(f, p, c) == Cell(u, Kept(m)[p], c)
  {
    NormalizedCells(u);
    FilterKeeps(u, n);
    WhereAt(n, SoldMask(u), p);
  }

  /** Every row left by the filters has a positive price and a positive quantity. */
  lemma FilteredPositive(u: Frame, n: Frame)
    requires HasFilterColumns(u) && Normalized(u) == Ok(n) && SalesFiltered(n).Ok?
    ensures var f := SalesFiltered(n).value;
      && HasFilterColumns(f)
      && forall p :: 0 <= p < |f.rows| ==> Positive(Cell(f, p, "price")) && Positive(Cell(f, p, "quantity"))
  {
    var f := SalesFiltered(n).value;
    forall p | 0 <= p < |f.rows| ensures Positive(Cell(f, p, "price")) && Positive(Cell(f, p, "quantity")) {
      FilteredRow(u, n, p);
    }
  }

  /** Which relabelled frames get through transform_sales_data's steps: region, timestamp, price and
      quantity must be columns (KeyError otherwise), region must hold text (AttributeError otherwise)
      and the comparisons with 0 must not raise (TypeError otherwise). The result keeps exactly the Sold
      rows, in order, with their index labels, and adds total_sales when it is new. */
  lemma SalesProcessedOk(u: Frame, parse: Parser)
    ensures SalesProcessed(u, parse).Ok? <==>
      HasFilterColumns(u) && TextColumn(Col(u, "region")) && forall i :: 0 <= i < |u.rows| ==> Comparable(u, i)
    ensures SalesProcessed(u, parse).Err? ==>
      SalesProcessed(u, parse).error.KeyError? || SalesProcessed(u, parse).error.AttributeError? || SalesProcessed(u, parse).error.TypeError?
    ensures "region" in u.columns && !TextColumn(Col(u, "region")) ==> SalesProcessed(u, parse) == Err(AttributeError(NoStrAccessor))
    ensures HasFilterColumns(u) && TextColumn(Col(u, "region")) && SalesProcessed(u, parse).Err? ==> SalesProcessed(u, parse).error.TypeError?
    ensures SalesProcessed(u, parse).Ok? ==>
      var w := SalesProcessed(u, parse).value; var m := SoldMask(u);
      && w.columns == WithTotal(u.columns) && w.index == Pick(u.index, m) && |w.rows| == |Kept(m)|
      && (forall i :: 0 <= i < |u.rows| ==> (Sold(u, i) <==> i in Kept(m)))
      && (forall p, q :: 0 <= p < q < |Kept(m)| ==> Kept(m)[p] < Kept(m)[q])
  {
    if HasFilterColumns(u) && TextColumn(Col(u, "region")) {
      TextSalesProcessed(u, parse);
    } else if "region" in u.columns && TextColumn(Col(u, "region")) {
      NormalizedCells(u);
    }
  }

  /** SalesProcessedOk once the four columns are there and region holds text: only a comparison can
      fail, and a success keeps exactly the Sold rows. */
  lemma TextSalesProcessed(u: Frame, parse: Parser)
    requires HasFilterColumns(u) && TextColumn(Col(u, "region"))
    ensures SalesProcessed(u, parse).Ok? <==> forall i :: 0 <= i < |u.rows| ==> Comparable(u, i)
    ensures SalesProcessed(u, parse).Err? ==> SalesProcessed(u, parse).error.TypeError?
    ensures SalesProcessed(u, parse).Ok? ==>
      var w := SalesProcessed(u, parse).value; var m := SoldMask(u);
      && w.columns == WithTotal(u.columns) && w.index == Pick(u.index, m) && |w.rows| == |Kept(m)|
      && (forall i :: 0 <= i < |u.rows| ==> (Sold(u, i) <==> i in Kept(m)))
      && (forall p, q :: 0 <= p < q < |Kept(m)| ==> Kept(m)[p] < Kept(m)[q])
  {
    NormalizedCells(u);
    var n := Normalized(u).value;
    FilterOk(u, n);
    if SalesFiltered(n).Ok? {
      TextSalesShape(u, n, parse);
    } else {
      assert SalesProcessed(u, parse) == Err(SalesFiltered(n).error);
    }
  }

  /** A frame that gets through the filters gets through the rest: the result keeps the Sold rows with
      their labels and adds total_sales. */
  lemma TextSalesShape(u: Frame, n: Frame, parse: Parser)
    requires HasFilterColumns(u) && Normalized(u) == Ok(n) && SalesFiltered(n).Ok?
    ensures SalesProcessed(u, parse).Ok?
    ensures var w := SalesProcessed(u, parse).value; var m := SoldMask(u);
      && w.columns == WithTotal(u.columns) && w.index == Pick(u.index, m) && |w.rows| == |Kept(m)|
      && (forall i :: 0 <= i < |u.rows| ==> (Sold(u, i) <==> i in Kept(m)))
      && (forall p, q :: 0 <= p < q < |Kept(m)| ==> Kept(m)[p] < Kept(m)[q])
  {
    var f := SalesFiltered(n).value;
    FilterKeeps(u, n);
    FilteredPositive(u, n);
    StampedOk(f, parse);
    assert SalesProcessed(u, parse) == SalesStamped(f, parse);
    KeptSpec(u.index, SoldMask(u));
  }

  /** Row p of the processed frame comes from row Kept(SoldMask(u))[p] of the relabelled frame u: region
      normalised, timestamp parsed (format="mixed"), total_sales = quantity * price, the rest unchanged. */
  lemma SalesRow(u: Frame, parse: Parser, p: int)
    requires SalesProcessed(u, parse).Ok? && 0 <= p < |SalesProcessed(u, parse).value.rows|
    ensures HasFilterColumns(u)
    ensures var w := SalesProcessed(u, parse).value; var m := SoldMask(u);
      && |Kept(m)| == |w.rows| && 0 <= Kept(m)[p] < |u.rows| && Sold(u, Kept(m)[p])
      && WithTotal(u.columns) == w.columns && w.index[p] == u.index[Kept(m)[p]]
      && Cell(w, p, "region") == Str(StripLower(Cell(u, Kept(m)[p], "region").s))
      && Cell(w, p, "timestamp") == ToDate(Cell(u, Kept(m)[p], "timestamp"), Mixed, parse)
      && Cell(w, p, "total_sales") == Times(Cell(u, Kept(m)[p], "quantity"), Cell(u, Kept(m)[p], "price"))
      && forall c :: c in u.columns && c != "region" && c != "timestamp" && c != "total_sales" ==>
           Cell(w, p, c) == Cell(u, Kept(m)[p], c)
  {
    SalesProcessedOk(u, parse);
    var n := Normalized(u).value;
    var f := SalesFiltered(n).value;
    FilteredRow(u, n, p);
    StampedRow(f, parse, p);
  }

  /** Every row of the result has quantity > 0, price > 0 and so total_sales = quantity * price > 0:
      the value checks of the output sales schema cannot fail. */
  lemma SalesPositive(u: Frame, parse: Parser, p: int)
    requires SalesProcessed(u, parse).Ok? && 0 <= p < |SalesProcessed(u, parse).value.rows|
    ensures var w := SalesProcessed(u, parse).value;
      && "quantity" in w.columns && "price" in w.columns && "total_sales" in w.columns
      && Positive(Cell(w, p, "quantity")) && Positive(Cell(w, p, "price")) && Positive(Cell(w, p, "total_sales"))
  {
    SalesRow(u, parse, p);
    var i := Kept(SoldMask(u))[p];
    TimesPositive(Cell(u, i, "quantity"), Cell(u, i, "price"));
  }

  /** The product of two positive numbers is a positive number. */
  lemma TimesPositive(a: Value, b: Value)
    requires Positive(a) && Positive(b)
    ensures Positive(Times(a, b))
  {
    var x, y := AsReal(a), AsReal(b);
    assert x * y > 0.0;
  }


  /** A stripped and lower-cased string passes `str.islower` exactly when the original has a letter. */
  lemma StripLowerIsLower(s: string)
    ensures IsLowerStr(StripLower(s)) <==> HasLetter(s)
  {
    LowerIsLowerStr(Strip(s));
    StripHasLetter(s);
  }

  /** What a Sold row of the relabelled frame needs to pass the output sales schema once transformed:
      integer ids and quantity, a float price, a region with a letter and a timestamp that parses. */
  predicate ReadySale(u: Frame, i: int, parse: Parser)
    requires 0 <= i < |u.rows| && HasFilterColumns(u) && "sales_id" in u.columns && "product_id" in u.columns
  {
    && Cell(u, i, "sales_id").Int? && Cell(u, i, "product_id").Int?
    && Cell(u, i, "region").Str? && HasLetter(Cell(u, i, "region").s)
    && Cell(u, i, "quantity").Int? && Cell(u, i, "price").Real?
    && ToDate(Cell(u, i, "timestamp"), Mixed, parse).Date?
  }

  /** Row p of the processed frame is a good output sales row exactly when its source row is ReadySale. */
  lemma SaleAccepted(u: Frame, parse: Parser, p: int)
    requires SalesProcessed(u, parse).Ok? && 0 <= p < |SalesProcessed(u, parse).value.rows|
    requires "sales_id" in u.columns && "product_id" in u.columns
    ensures HasFilterColumns(u) && ExamPrepSalesSchema.HasSalesColumns(SalesProcessed(u, parse).value)
    ensures |Kept(SoldMask(u))| == |SalesProcessed(u, parse).value.rows| && 0 <= Kept(SoldMask(u))[p] < |u.rows|
    ensures ExamPrepSalesSchema.GoodSalesRow(SalesProcessed(u, parse).value, p) <==> ReadySale(u, Kept(SoldMask(u))[p], parse)
  {
    SalesRow(u, parse, p);
    SalesPositive(u, parse, p);
    StripLowerIsLower(Cell(u, Kept(SoldMask(u))[p], "region").s);
  }

  /** validate_output_sales_schema accepts the processed frame exactly when sales_id and product_id are
      columns and every Sold row is ReadySale: the range checks (quantity > 0, price > 0,
      total_sales >= 0) always hold after the filters. */
  lemma SalesAccepted(u: Frame, parse: Parser)
    requires SalesProcessed(u, parse).Ok?
    ensures ExamPrepSalesSchema.ValidateOutputSales(SalesProcessed(u, parse).value).Ok? <==>
      && "sales_id" in u.columns && "product_id" in u.columns
      && HasFilterColumns(u)
      && forall i :: 0 <= i < |u.rows| && Sold(u, i) ==> ReadySale(u, i, parse)
  {
    var w := SalesProcessed(u, parse).value;
    SalesProcessedOk(u, parse);
    var m := SoldMask(u);
    ExamPrepSalesSchema.OutputSalesSpec(w);
    if "sales_id" in u.columns && "product_id" in u.columns {
      forall p | 0 <= p < |w.rows|
        ensures 0 <= Kept(m)[p] < |u.rows| && Sold(u, Kept(m)[p])
        ensures ExamPrepSalesSchema.HasSalesColumns(w)
        ensures ExamPrepSalesSchema.GoodSalesRow(w, p) <==> ReadySale(u, Kept(m)[p], parse)
      {
        SaleAccepted(u, parse, p);
        SalesRow(u, parse, p);
      }
      forall i | 0 <= i < |u.rows| && Sold(u, i) ensures exists p :: 0 <= p < |w.rows| && Kept(m)[p] == i {
        assert i in Kept(m);
      }
    }
  }


  // ----- transform_products_data -----

  /** `.str.strip().str.upper()` on one brand. */
  function StripUpper(s: string): string {
    Upper(Strip(s))
  }

  /** A stripped and upper-cased string passes `str.isupper` exactly when the original has a letter. */
  lemma StripUpperIsUpper(s: string)
    ensures IsUpperStr(StripUpper(s)) <==> HasLetter(s)
  {
    UpperIsUpperStr(Strip(s));
    StripHasLetter(s);
  }

  /** The in-place statements after the relabelling: category stripped and lower-cased, then brand
      stripped and upper-cased; a column without text has no `.str` accessor. */
  function ProductsNormalized(v: Frame): (r: Result<Frame>)
  {
    if "category" !in v.columns then Err(KeyError("category"))
    else if !TextColumn(Col(v, "category")) then Err(AttributeError(NoStrAccessor))
    else
      var c := Assign(v, "category", StrApply(Col(v, "category"), StripLower));
      if "brand" !in c.columns then Err(KeyError("brand"))
      else if !TextColumn(Col(c, "brand")) then Err(AttributeError(NoStrAccessor))
      else Ok(Assign(c, "brand", StrApply(Col(c, "brand"), StripUpper)))
  }

  /** dropna(subset=["product_id", "rating"]), then drop_duplicates() over whole rows. */
  function ProductsDeduplicated(n: Frame): (r: Result<Frame>)
  {
    match DropNaSubset(n, ["product_id", "rating"])
    case Err(x) => Err(x)
    case Ok(e) => DropDuplicates(e, None, KeepFirst)
  }

  /** Everything after the relabelling, up to the output validator. */
  function ProductsProcessed(v: Frame): (r: Result<Frame>)
  {
    match ProductsNormalized(v)
    case Err(x) => Err(x)
    case Ok(n) => ProductsDeduplicated(n)
  }

  /** transform_products_data(products_df): the validated frame, or the exception raised. */
  function TransformProductsData(t: Frame): (r: Result<Frame>)
  {
    match ProductsProcessed(Relabel(t, TrimLabel))
    case Err(x) => Err(x)
    case Ok(w) => ExamPrepProductsSchema.ValidateOutputProducts(w)
  }

  /** transform_products_data(products_df): the relabelling and the two text rewrites change the
      caller's frame; dropna and drop_duplicates work on copies. */
  method TransformProducts(df: DataFrame) returns (r: Result<Frame>)
    requires df.Valid()
    modifies df
    ensures df.Valid()
    ensures r == TransformProductsData(old(df.Snapshot()))
    ensures var v := Relabel(old(df.Snapshot()), TrimLabel);
      df.Snapshot() == if ProductsNormalized(v).Ok? then ProductsNormalized(v).value
        else if "category" in v.columns && TextColumn(Col(v, "category")) then
          Assign(v, "category", StrApply(Col(v, "category"), StripLower))
        else v
  {
    var checked := AdvisoryPreValidate(ExamPrepProductsSchema.InputProducts(), df.Snapshot());
    df.RelabelWith(TrimLabel);
    if "category" !in df.columns {
      return Err(KeyError("category"));
    }
    if !TextColumn(Col(df.Snapshot(), "category")) {
      return Err(AttributeError(NoStrAccessor));
    }
    df.SetColumn("category", StrApply(Col(df.Snapshot(), "category"), StripLower));
    if "brand" !in df.columns {
      return Err(KeyError("brand"));
    }
    if !TextColumn(Col(df.Snapshot(), "brand")) {
      return Err(AttributeError(NoStrAccessor));
    }
    df.SetColumn("brand", StrApply(Col(df.Snapshot(), "brand"), StripUpper));
    var w := ProductsDeduplicated(df.Snapshot());
    if w.Err? {
      return Err(w.error);
    }
    r := ExamPrepProductsSchema.ValidateOutputProducts(w.value);
  }


  /** Normalising rewrites category and brand alone: text is stripped and re-cased, anything else
      becomes missing. */
  lemma ProductsNormalizedCells(v: Frame)
    requires Recasable(v)
    ensures ProductsNormalized(v).Ok?
    ensures var n := ProductsNormalized(v).value;
      && n.columns == v.columns && n.index == v.index && |n.rows| == |v.rows|
      && (forall i :: 0 <= i < |v.rows| ==>
            Cell(n, i, "category") == (if Cell(v, i, "category").Str? then Str(StripLower(Cell(v, i, "category").s)) else Null))
      && (forall i :: 0 <= i < |v.rows| ==>
            Cell(n, i, "brand") == (if Cell(v, i, "brand").Str? then Str(StripUpper(Cell(v, i, "brand").s)) else Null))
      && (forall i, c :: 0 <= i < |v.rows| && c in v.columns && c != "category" && c != "brand" ==> Cell(n, i, c) == Cell(v, i, c))
  {
    var cats := StrApply(Col(v, "category"), StripLower);
    var c := Assign(v, "category", cats);
    AssignKeeps(v, "category", cats);
    AssignTextColumn(v, "category", cats, "brand");
    var brands := StrApply(Col(c, "brand"), StripUpper);
    AssignKeeps(c, "brand", brands);
  }

  /** category and brand are columns holding text, so both `.str` rewrites go through. */
  predicate Recasable(v: Frame) {
    "category" in v.columns && "brand" in v.columns && TextColumn(Col(v, "category")) && TextColumn(Col(v, "brand"))
  }

  /** transform_products_data's steps fail only on a missing column (category, brand, product_id or
      rating: KeyError) or on a category or brand column without text (AttributeError). */
  lemma ProductsProcessedOk(v: Frame)
    ensures ProductsProcessed(v).Ok? <==> Recasable(v) && "product_id" in v.columns && "rating" in v.columns
    ensures ProductsProcessed(v).Err? ==> ProductsProcessed(v).error.KeyError? || ProductsProcessed(v).error.AttributeError?
    ensures "category" in v.columns && "brand" in v.columns && !Recasable(v) ==> ProductsProcessed(v) == Err(AttributeError(NoStrAccessor))
    ensures ProductsProcessed(v).Ok? ==> ProductsProcessed(v).value.columns == v.columns
  {
    ProductsNormalizedShape(v);
    if ProductsNormalized(v).Ok? {
      var n := ProductsNormalized(v).value;
      var subset := ["product_id", "rating"];
      assert AllIn(subset, n.columns) <==> "product_id" in v.columns && "rating" in v.columns by {
        assert subset[0] == "product_id" && subset[1] == "rating";
      }
    }
  }

  /** Normalising fails only on a missing category or brand column (KeyError) or on one of them without
      text (AttributeError), and keeps the labels. */
  lemma ProductsNormalizedShape(v: Frame)
    ensures ProductsNormalized(v).Ok? <==> Recasable(v)
    ensures ProductsNormalized(v).Err? ==> ProductsNormalized(v).error.KeyError? || ProductsNormalized(v).error.AttributeError?
    ensures "category" in v.columns && "brand" in v.columns && !Recasable(v) ==> ProductsNormalized(v) == Err(AttributeError(NoStrAccessor))
    ensures ProductsNormalized(v).Ok? ==> ProductsNormalized(v).value.columns == v.columns
  {
    if "category" in v.columns && TextColumn(Col(v, "category")) {
      var cats := StrApply(Col(v, "category"), StripLower);
      AssignKeeps(v, "category", cats);
      var c := Assign(v, "category", cats);
      if "brand" in c.columns {
        AssignTextColumn(v, "category", cats, "brand");
        AssignKeeps(c, "brand", StrApply(Col(c, "brand"), StripUpper));
      }
    }
  }

  /** Row i of the normalised frame has product_id and rating present. */
  predicate Identified(n: Frame, i: int)
    requires 0 <= i < |n.rows| && "product_id" in n.columns && "rating" in n.columns
  {
    Cell(n, i, "product_id") != Null && Cell(n, i, "rating") != Null
  }

  /** w holds the Identified rows of n, each once: every row of w is one, no row of w appears twice,
      and every Identified row of n appears. */
  predicate IdentifiedOnce(n: Frame, w: Frame)
    requires "product_id" in n.columns && "rating" in n.columns
  {
    && w.columns == n.columns
    && RowsIdentified(n, w)
    && (forall p, q :: 0 <= p < q < |w.rows| ==> w.rows[p] != w.rows[q])
    && IdentifiedKept(n, w)
  }

  predicate RowsIdentified(n: Frame, w: Frame)
    requires "product_id" in n.columns && "rating" in n.columns
  {
    forall p :: 0 <= p < |w.rows| ==> exists i :: 0 <= i < |n.rows| && w.rows[p] == n.rows[i] && Identified(n, i)
  }

  predicate IdentifiedKept(n: Frame, w: Frame)
    requires "product_id" in n.columns && "rating" in n.columns
  {
    forall i :: 0 <= i < |n.rows| && Identified(n, i) ==> exists p :: 0 <= p < |w.rows| && w.rows[p] == n.rows[i]
  }

  /** dropna then drop_duplicates never fail once product_id and rating are columns, and leave each
      Identified row of the normalised frame exactly once. */
  lemma DeduplicatedSpec(n: Frame)
    requires "product_id" in n.columns && "rating" in n.columns
    ensures ProductsDeduplicated(n).Ok? && IdentifiedOnce(n, ProductsDeduplicated(n).value)
  {
    var e := DropNaSubset(n, ["product_id", "rating"]).value;
    var w := DropDuplicates(e, None, KeepFirst).value;
    assert ProductsDeduplicated(n) == Ok(w);
    DeduplicatedFrom(n, e, w);
    DeduplicatedKeeps(n, e, w);
    DeduplicatedDistinct(e, w);
  }

  /** drop_duplicates() over whole rows leaves no row twice. */
  lemma DeduplicatedDistinct(e: Frame, w: Frame)
    requires DropDuplicates(e, None, KeepFirst) == Ok(w)
    ensures forall p, q :: 0 <= p < q < |w.rows| ==> w.rows[p] != w.rows[q]
  {
    DropDuplicatesSpec(e, None);
    assert forall p :: 0 <= p < |w.rows| ==> DupKey(w, p, None) == w.rows[p];
  }

  /** Every row drop_duplicates leaves is a row dropna kept, hence an Identified row. */
  lemma DeduplicatedFrom(n: Frame, e: Frame, w: Frame)
    requires "product_id" in n.columns && "rating" in n.columns
    requires DropNaSubset(n, ["product_id", "rating"]) == Ok(e) && DropDuplicates(e, None, KeepFirst) == Ok(w)
    ensures RowsIdentified(n, w)
  {
    var subset := ["product_id", "rating"];
    var keep := seq(|e.rows|, k requires 0 <= k < |e.rows| => Survives(e, k, None, KeepFirst));
    assert w == Where(e, keep);
    forall p | 0 <= p < |w.rows| ensures exists i :: 0 <= i < |n.rows| && w.rows[p] == n.rows[i] && Identified(n, i) {
      assert w.rows[p] in e.rows;
      var k :| 0 <= k < |e.rows| && e.rows[k] == w.rows[p];
      var i := DropNaSubsetRow(n, subset, k);
      assert subset[0] in subset && subset[1] in subset;
      assert e.rows[k] == n.rows[i];
      assert Identified(n, i);
      assert w.rows[p] == n.rows[i];
    }
    assert forall p :: 0 <= p < |w.rows| ==> exists i :: 0 <= i < |n.rows| && w.rows[p] == n.rows[i] && Identified(n, i);
  }

  /** Every Identified row survives dropna, and drop_duplicates leaves a row equal to it. */
  lemma DeduplicatedKeeps(n: Frame, e: Frame, w: Frame)
    requires "product_id" in n.columns && "rating" in n.columns
    requires DropNaSubset(n, ["product_id", "rating"]) == Ok(e) && DropDuplicates(e, None, KeepFirst) == Ok(w)
    ensures IdentifiedKept(n, w)
  {
    var subset := ["product_id", "rating"];
    DropDuplicatesSpec(e, None);
    forall i | 0 <= i < |n.rows| && Identified(n, i) ensures exists p :: 0 <= p < |w.rows| && w.rows[p] == n.rows[i] {
      forall c | c in subset ensures Cell(n, i, c) != Null {
      }
      DropNaSubsetKeeps(n, subset, i);
      var k :| 0 <= k < |e.rows| && e.rows[k] == n.rows[i];
      var p :| 0 <= p < |w.rows| && DupKey(w, p, None) == DupKey(e, k, None);
    }
  }

  /** Equal rows under the same labels are equally good product rows. */
  lemma SameProductRow(a: Frame, i: int, b: Frame, p: int)
    requires 0 <= i < |a.rows| && 0 <= p < |b.rows| && b.columns == a.columns && b.rows[p] == a.rows[i]
    requires ExamPrepProductsSchema.HasProductColumns(a)
    ensures ExamPrepProductsSchema.GoodProductRow(b, p) <==> ExamPrepProductsSchema.GoodProductRow(a, i)
  {
  }

  /** What an input product row needs to pass the output products schema once normalised: an integer
      product_id, a float rating, and text with a letter as category and as brand. */
  predicate ReadyProduct(v: Frame, i: int)
    requires 0 <= i < |v.rows| && ExamPrepProductsSchema.HasProductColumns(v)
  {
    && Cell(v, i, "product_id").Int? && Cell(v, i, "rating").Real?
    && Cell(v, i, "category").Str? && HasLetter(Cell(v, i, "category").s)
    && Cell(v, i, "brand").Str? && HasLetter(Cell(v, i, "brand").s)
  }

  /** A normalised row is a good output product row exactly when its source row is ReadyProduct. */
  lemma NormalizedProductRow(v: Frame, i: int)
    requires ExamPrepProductsSchema.HasProductColumns(v) && Recasable(v) && 0 <= i < |v.rows|
    ensures ProductsNormalized(v).Ok? && |ProductsNormalized(v).value.rows| == |v.rows|
    ensures var n := ProductsNormalized(v).value;
      && ExamPrepProductsSchema.HasProductColumns(n)
      && (Identified(n, i) <==> Cell(v, i, "product_id") != Null && Cell(v, i, "rating") != Null)
      && (ExamPrepProductsSchema.GoodProductRow(n, i) <==> ReadyProduct(v, i))
  {
    ProductsNormalizedCells(v);
    if Cell(v, i, "category").Str? {
      StripLowerIsLower(Cell(v, i, "category").s);
    }
    if Cell(v, i, "brand").Str? {
      StripUpperIsUpper(Cell(v, i, "brand").s);
    }
  }

  /** validate_output_products_schema accepts the processed frame exactly when every input row with
      product_id and rating present is ReadyProduct: duplicates and rows dropped by dropna do not matter. */
  lemma ProductsAccepted(v: Frame)
    requires ProductsProcessed(v).Ok?
    ensures ExamPrepProductsSchema.HasProductColumns(v)
    ensures ExamPrepProductsSchema.ValidateOutputProducts(ProductsProcessed(v).value).Ok? <==>
      forall i :: 0 <= i < |v.rows| && Cell(v, i, "product_id") != Null && Cell(v, i, "rating") != Null ==> ReadyProduct(v, i)
  {
    ProductsProcessedOk(v);
    ProductsNormalizedCells(v);
    var n := ProductsNormalized(v).value;
    var w := ProductsProcessed(v).value;
    DeduplicatedSpec(n);
    ExamPrepProductsSchema.OutputProductsSpec(w);
    GoodRowsKept(n, w);
    forall i | 0 <= i < |v.rows|
      ensures (Identified(n, i) <==> Cell(v, i, "product_id") != Null && Cell(v, i, "rating") != Null)
      ensures ExamPrepProductsSchema.GoodProductRow(n, i) <==> ReadyProduct(v, i)
    {
      NormalizedProductRow(v, i);
    }
  }

  /** When w holds exactly the Identified rows of n (each perhaps once), all rows of w are good product
      rows exactly when all Identified rows of n are. */
  lemma GoodRowsKept(n: Frame, w: Frame)
    requires ExamPrepProductsSchema.HasProductColumns(n) && IdentifiedOnce(n, w)
    ensures (forall p :: 0 <= p < |w.rows| ==> ExamPrepProductsSchema.GoodProductRow(w, p)) <==>
      (forall i :: 0 <= i < |n.rows| && Identified(n, i) ==> ExamPrepProductsSchema.GoodProductRow(n, i))
  {
    forall i | 0 <= i < |n.rows| && Identified(n, i)
      ensures exists p :: 0 <= p < |w.rows| && (ExamPrepProductsSchema.GoodProductRow(w, p) <==> ExamPrepProductsSchema.GoodProductRow(n, i))
    {
      assert IdentifiedKept(n, w);
      var p :| 0 <= p < |w.rows| && w.rows[p] == n.rows[i];
      SameProductRow(n, i, w, p);
    }
    forall p | 0 <= p < |w.rows|
      ensures exists i :: 0 <= i < |n.rows| && Identified(n, i) && (ExamPrepProductsSchema.GoodProductRow(w, p) <==> ExamPrepProductsSchema.GoodProductRow(n, i))
    {
      assert RowsIdentified(n, w);
      var i :| 0 <= i < |n.rows| && w.rows[p] == n.rows[i] && Identified(n, i);
      SameProductRow(n, i, w, p);
    }
  }

  // ----- merge_sales_and_products -----

  /** merge_sales_and_products: sales.merge(products, on="product_id", how="inner"). */
  function MergeSalesAndProducts(sales: Frame, products: Frame): (r: Result<Frame>)
    ensures r.Err? <==> "product_id" !in sales.columns || "product_id" !in products.columns
    ensures r.Err? ==> r.error == KeyError("product_id")
  {
    Merge(sales, products, "product_id", "product_id", Inner)
  }

  /** x joins sales row i with products row j: the two agree on product_id, and x is the sales row
      followed by the products row without its product_id cell. */
  predicate SaleOfProduct(sales: Frame, products: Frame, x: seq<Value>, i: int, j: int)
    requires "product_id" in sales.columns && "product_id" in products.columns
  {
    && 0 <= i < |sales.rows| && 0 <= j < |products.rows|
    && Cell(sales, i, "product_id") == Cell(products, j, "product_id")
    && x == sales.rows[i] + Gather(products.rows[j], KeptRight(products, "product_id", true))
  }

  /** The merged frame holds exactly the pairs of a sale and a product with the same product_id; the
      key appears once among its labels and the rows are numbered 0..n-1. */
  lemma MergedRows(sales: Frame, products: Frame, x: seq<Value>)
    requires "product_id" in sales.columns && "product_id" in products.columns
    ensures MergeSalesAndProducts(sales, products).Ok?
    ensures var m := MergeSalesAndProducts(sales, products).value;
      && |m.columns| == |sales.columns| + |products.columns| - 1 && m.index == Range(|m.rows|)
      && (x in m.rows <==> exists i, j :: SaleOfProduct(sales, products, x, i, j))
  {
    MergeInnerSpec(sales, products, "product_id", x);
    var m := MergeSalesAndProducts(sales, products).value;
    var li, ri := IndexOf(sales.columns, "product_id"), IndexOf(products.columns, "product_id");
    var ks := KeptRight(products, "product_id", true);
    if x in m.rows {
      var i, j :| JoinedPair(sales.rows, li, products.rows, ri, ks, x, i, j);
      JoinedSale(sales, products, x, i, j);
    }
    if exists i, j :: SaleOfProduct(sales, products, x, i, j) {
      var i, j :| SaleOfProduct(sales, products, x, i, j);
      JoinedSale(sales, products, x, i, j);
    }
  }

  /** For one pair of rows, the join's own pairing and SaleOfProduct say the same. */
  lemma JoinedSale(sales: Frame, products: Frame, x: seq<Value>, i: int, j: int)
    requires "product_id" in sales.columns && "product_id" in products.columns
    ensures SaleOfProduct(sales, products, x, i, j) <==>
      JoinedPair(sales.rows, IndexOf(sales.columns, "product_id"), products.rows, IndexOf(products.columns, "product_id"),
        KeptRight(products, "product_id", true), x, i, j)
  {
  }

  // ----- enrich_merged_data -----

  /** The bins of sales_bucket, -1 < low <= 100 < medium <= 500 < high, and their labels. */
  const BucketEdges: seq<real> := [-1.0, 100.0, 500.0]
  const BucketLabels: seq<string> := ["low", "medium", "high"]

  /** The bucket of one total_sales cell, read off the three intervals. */
  function Bucket(v: Value): Value
    requires NumOrNull(v)
  {
    if v.Null? || AsReal(v) <= -1.0 then Null
    else if AsReal(v) <= 100.0 then Str("low")
    else if AsReal(v) <= 500.0 then Str("medium")
    else Str("high")
  }

  /** pd.cut with these bins puts a cell in (-1, 100] in "low", (100, 500] in "medium", above 500 in
      "high", and anything at or below -1 (or missing) in no bucket. */
  lemma {:induction false} BucketSpec(v: Value)
    requires NumOrNull(v)
    ensures CutValue(v, BucketEdges, true, BucketLabels) == Bucket(v)
  {
    if !v.Null? && AsReal(v) > 100.0 {
      assert BucketEdges[1..] == [100.0, 500.0] && BucketLabels[1..] == ["medium", "high"];
      if AsReal(v) > 500.0 {
        assert BucketEdges[1..][1..] == [500.0] && BucketLabels[1..][1..] == ["high"];
      }
    }
  }

  /** A positive sale always lands in a bucket. */
  lemma PositiveBucketed(v: Value)
    requires Positive(v)
    ensures CutValue(v, BucketEdges, true, BucketLabels) in {Str("low"), Str("medium"), Str("high")}
  {
    BucketSpec(v);
  }

  /** dt.hour.astype(int64): the hour of every date; a missing timestamp has no hour and the cast
      raises ValueError. */
  function Hours(xs: seq<Value>): (r: Result<seq<Value>>)
    ensures r.Ok? <==> forall i :: 0 <= i < |xs| ==> xs[i].Date?
    ensures r.Err? ==> r.error.ValueError?
    ensures r.Ok? ==> |r.value| == |xs| && forall i :: 0 <= i < |xs| ==> r.value[i] == Int(xs[i].d.hour)
  {
    if forall i :: 0 <= i < |xs| ==> xs[i].Date? then Ok(seq(|xs|, i requires 0 <= i < |xs| => Int(xs[i].d.hour)))
    else Err(ValueError("cannot convert NaT to integer"))
  }

  /** The frame with an hour column, once the timestamps are parsed. */
  function WithHours(u: Frame): (r: Result<Frame>)
    requires "timestamp" in u.columns
  {
    match Hours(Col(u, "timestamp"))
    case Err(x) => Err(x)
    case Ok(hs) => Ok(Assign(u, "hour", hs))
  }

  /** sales_bucket = pd.cut(total_sales, ...), or the error it raises. */
  function WithBuckets(h: Frame): (r: Result<Frame>)
  {
    if "total_sales" !in h.columns then Err(KeyError("total_sales"))
    else match Cut(Col(h, "total_sales"), BucketEdges, true, BucketLabels)
      case Err(x) => Err(x)
      case Ok(b) => Ok(Assign(h, "sales_bucket", b))
  }

  /** enrich_merged_data(merged_df) up to its output validator: timestamp parsed, the hour of each sale
      and its sales bucket added. */
  function Enriched(t: Frame, parse: Parser): (r: Result<Frame>)
  {
    if "timestamp" !in t.columns then Err(KeyError("timestamp"))
    else match WithHours(Parsed(t, parse))
      case Err(x) => Err(x)
      case Ok(h) => WithBuckets(h)
  }

  /** enrich_merged_data(merged_df): the new columns are written into the caller's frame. When a step
      raises, the frame keeps what the earlier steps wrote. */
  method EnrichMergedData(df: DataFrame, parse: Parser) returns (r: Result<Frame>)
    requires df.Valid()
    modifies df
    ensures df.Valid()
    ensures r == Enriched(old(df.Snapshot()), parse)
    ensures r.Ok? ==> df.Snapshot() == r.value
    ensures r.Err? ==>
      || df.Snapshot() == old(df.Snapshot())
      || ("timestamp" in old(df.Snapshot()).columns && df.Snapshot() == Parsed(old(df.Snapshot()), parse))
      || ("timestamp" in old(df.Snapshot()).columns && WithHours(Parsed(old(df.Snapshot()), parse)).Ok?
          && df.Snapshot() == WithHours(Parsed(old(df.Snapshot()), parse)).value)
  {
    if "timestamp" !in df.columns {
      return Err(KeyError("timestamp"));
    }
    df.SetColumn("timestamp", ToDates(Col(df.Snapshot(), "timestamp"), Mixed, parse));
    var hs := Hours(Col(df.Snapshot(), "timestamp"));
    if hs.Err? {
      return Err(hs.error);
    }
    df.SetColumn("hour", hs.value);
    if "total_sales" !in df.columns {
      return Err(KeyError("total_sales"));
    }
    var b := Cut(Col(df.Snapshot(), "total_sales"), BucketEdges, true, BucketLabels);
    if b.Err? {
      return Err(b.error);
    }
    df.SetColumn("sales_bucket", b.value);
    r := Ok(df.Snapshot());
  }

  /** enrich_merged_data succeeds exactly when timestamp is there and every timestamp parses, and
      total_sales is there and holds only numbers and missing cells; otherwise it raises KeyError,
      ValueError (a timestamp without an hour) or TypeError (pd.cut of text). */
  lemma EnrichedOk(t: Frame, parse: Parser)
    ensures Enriched(t, parse).Ok? <==>
      && "timestamp" in t.columns && "total_sales" in t.columns
      && (forall i :: 0 <= i < |t.rows| ==> ToDate(Cell(t, i, "timestamp"), Mixed, parse).Date?)
      && AllNumOrNull(Col(t, "total_sales"))
    ensures "timestamp" !in t.columns ==> Enriched(t, parse) == Err(KeyError("timestamp"))
    ensures Enriched(t, parse).Err? ==>
      || Enriched(t, parse).error in {KeyError("timestamp"), KeyError("total_sales")}
      || Enriched(t, parse).error.ValueError? || Enriched(t, parse).error.TypeError?
  {
    if "timestamp" in t.columns {
      var u := Parsed(t, parse);
      EnrichedFrames(t, parse);
      if WithHours(u).Ok? {
        var h := WithHours(u).value;
        if "total_sales" in t.columns {
          assert Col(h, "total_sales") == Col(t, "total_sales");
        }
      }
    }
  }

  /** What the two Assign steps of enrich_merged_data keep and write, cell by cell. */
  lemma EnrichedFrames(t: Frame, parse: Parser)
    requires "timestamp" in t.columns
    ensures var u := Parsed(t, parse);
      && |u.rows| == |t.rows| && u.index == t.index
      && (forall i :: 0 <= i < |t.rows| ==> Cell(u, i, "timestamp") == ToDate(Cell(t, i, "timestamp"), Mixed, parse))
      && (forall i, c :: 0 <= i < |t.rows| && c in t.columns && c != "timestamp" ==> Cell(u, i, c) == Cell(t, i, c))
      && (forall c :: c in u.columns <==> c in t.columns)
    ensures var u := Parsed(t, parse);
      WithHours(u).Ok? ==> var h := WithHours(u).value;
        && |h.rows| == |t.rows| && h.index == t.index
        && (forall i :: 0 <= i < |t.rows| ==> Cell(h, i, "hour") == Int(Cell(u, i, "timestamp").d.hour))
        && (forall i, c :: 0 <= i < |t.rows| && c in u.columns && c != "hour" ==> Cell(h, i, c) == Cell(u, i, c))
        && (forall c :: c in h.columns <==> c in u.columns || c == "hour")
  {
    var dates := ToDates(Col(t, "timestamp"), Mixed, parse);
    AssignKeeps(t, "timestamp", dates);
    AssignLabels(t, "timestamp", dates);
    var u := Parsed(t, parse);
    if WithHours(u).Ok? {
      var hs := Hours(Col(u, "timestamp")).value;
      AssignKeeps(u, "hour", hs);
      AssignLabels(u, "hour", hs);
    }
  }

  /** Row i of the enriched frame: its timestamp parsed, hour the hour of that timestamp, sales_bucket
      the bucket of its total_sales, every other column as it was; rows and labels stay in place. */
  lemma EnrichedRow(t: Frame, parse: Parser, i: int)
    requires Enriched(t, parse).Ok? && 0 <= i < |t.rows|
    ensures "timestamp" in t.columns && "total_sales" in t.columns && NumOrNull(Cell(t, i, "total_sales"))
    ensures var e := Enriched(t, parse).value;
      && |e.rows| == |t.rows| && e.index == t.index
      && "timestamp" in e.columns && "hour" in e.columns && "sales_bucket" in e.columns
      && ToDate(Cell(t, i, "timestamp"), Mixed, parse).Date?
      && Cell(e, i, "timestamp") == ToDate(Cell(t, i, "timestamp"), Mixed, parse)
      && Cell(e, i, "hour") == Int(ToDate(Cell(t, i, "timestamp"), Mixed, parse).d.hour)
      && Cell(e, i, "sales_bucket") == Bucket(Cell(t, i, "total_sales"))
      && (forall c :: c in t.columns && c !in {"timestamp", "hour", "sales_bucket"} ==> c in e.columns && Cell(e, i, c) == Cell(t, i, c))
  {
    EnrichedOk(t, parse);
    EnrichedFrames(t, parse);
    var u := Parsed(t, parse);
    var h := WithHours(u).value;
    var b := Cut(Col(h, "total_sales"), BucketEdges, true, BucketLabels).value;
    AssignKeeps(h, "sales_bucket", b);
    assert Cell(h, i, "total_sales") == Cell(t, i, "total_sales");
    BucketSpec(Cell(t, i, "total_sales"));
  }

  // ----- seasonal_sales_pattern -----

  /** The quarter of the year a date falls in, 1 to 4. */
  function QuarterOf(d: DateTime): (q: int)
    ensures 1 <= q <= 4
  {
    (d.month - 1) / 3 + 1
  }

  /** dt.to_period("Q").astype(str) on one cell: "<year>Q<quarter>" for a date, "NaT" otherwise. */
  function QuarterLabel(v: Value): string {
    if v.Date? then IntString(v.d.year) + "Q" + [DigitChar(QuarterOf(v.d))] else "NaT"
  }

  /** Two dates get the same quarter label exactly when they share year and quarter, and no date is
      labelled like a missing timestamp. */
  lemma QuarterLabelSpec(a: Value, b: Value)
    requires a.Date? && b.Date?
    ensures QuarterLabel(a) == QuarterLabel(b) <==> a.d.year == b.d.year && QuarterOf(a.d) == QuarterOf(b.d)
    ensures QuarterLabel(a) != "NaT"
  {
    var la, lb := QuarterLabel(a), QuarterLabel(b);
    assert la[|la| - 1] == DigitChar(QuarterOf(a.d));
    if la == lb {
      assert la[..|la| - 2] == IntString(a.d.year) && lb[..|lb| - 2] == IntString(b.d.year);
      IntStringInjective(a.d.year, b.d.year);
    }
    assert "NaT"[2] == 'T';
  }

  function Quarters(xs: seq<Value>): (r: seq<Value>)
    ensures |r| == |xs| && forall i :: 0 <= i < |xs| ==> r[i] == Str(QuarterLabel(xs[i]))
  {
    seq(|xs|, i requires 0 <= i < |xs| => Str(QuarterLabel(xs[i])))
  }

  /** The caller's frame after the first two statements: timestamp parsed, quarter added. */
  function Quartered(t: Frame, parse: Parser): (v: Frame)
    requires "timestamp" in t.columns
  {
    var u := Parsed(t, parse);
    Assign(u, "quarter", Quarters(Col(u, "timestamp")))
  }

  /** groupby(["quarter", "category"]).agg(total_sales=("total_sales", "sum")) on the quartered frame. */
  function SeasonalGrouped(t: Frame, parse: Parser): (r: Result<Frame>)
  {
    if "timestamp" !in t.columns then Err(KeyError("timestamp"))
    else GroupSum(Quartered(t, parse), ["quarter", "category"], "total_sales", "total_sales")
  }

  /** seasonal_sales_pattern(enriched_df): the validated per-quarter, per-category sums. */
  function SeasonalSalesPatternData(t: Frame, parse: Parser): (r: Result<Frame>)
  {
    match SeasonalGrouped(t, parse)
    case Err(x) => Err(x)
    case Ok(g) => ExamPrepSeasonalSchema.ValidateSeasonalPattern(g)
  }

  /** seasonal_sales_pattern(enriched_df): timestamp and quarter are written into the caller's frame;
      the grouping builds a new one. */
  method SeasonalSalesPattern(df: DataFrame, parse: Parser) returns (r: Result<Frame>)
    requires df.Valid()
    modifies df
    ensures df.Valid()
    ensures r == SeasonalSalesPatternData(old(df.Snapshot()), parse)
    ensures df.Snapshot() ==
      if "timestamp" in old(df.Snapshot()).columns then Quartered(old(df.Snapshot()), parse) else old(df.Snapshot())
  {
    if "timestamp" !in df.columns {
      return Err(KeyError("timestamp"));
    }
    df.SetColumn("timestamp", ToDates(Col(df.Snapshot(), "timestamp"), Mixed, parse));
    df.SetColumn("quarter", Quarters(Col(df.Snapshot(), "timestamp")));
    var g := GroupSum(df.Snapshot(), ["quarter", "category"], "total_sales", "total_sales");
    if g.Err? {
      return Err(g.error);
    }
    r := ExamPrepSeasonalSchema.ValidateSeasonalPattern(g.value);
  }

  /** The columns seasonal_sales_pattern reads. */
  predicate HasSeasonColumns(t: Frame) {
    "timestamp" in t.columns && "category" in t.columns && "total_sales" in t.columns
  }

  /** The group of row i: the quarter label of its parsed timestamp and its category. */
  function SeasonKey(t: Frame, i: int, parse: Parser): seq<Value>
    requires 0 <= i < |t.rows| && HasSeasonColumns(t)
  {
    [Str(QuarterLabel(ToDate(Cell(t, i, "timestamp"), Mixed, parse))), Cell(t, i, "category")]
  }

  /** The total_sales cells of the rows in group key. */
  function SeasonCells(t: Frame, parse: Parser, key: seq<Value>): (g: seq<Value>)
    requires HasSeasonColumns(t)
    ensures AllNumOrNull(Col(t, "total_sales")) ==> AllNumOrNull(g)
    ensures forall v :: v in g ==> v in Col(t, "total_sales")
  {
    var keep := seq(|t.rows|, i requires 0 <= i < |t.rows| => SeasonKey(t, i, parse) == key);
    PickKeeps(Col(t, "total_sales"), keep);
    PickWithin(Col(t, "total_sales"), keep);
    Pick(Col(t, "total_sales"), keep)
  }

  /** What the two Assign steps of seasonal_sales_pattern write and keep, cell by cell. */
  lemma QuarteredShape(t: Frame, parse: Parser)
    requires "timestamp" in t.columns
    ensures var v := Quartered(t, parse);
      && |v.rows| == |t.rows| && v.index == t.index
      && (forall c :: c in v.columns <==> c in t.columns || c == "quarter")
      && (forall i :: 0 <= i < |t.rows| ==> Cell(v, i, "quarter") == Str(QuarterLabel(ToDate(Cell(t, i, "timestamp"), Mixed, parse))))
      && (forall i, c :: 0 <= i < |t.rows| && c in t.columns && c != "quarter" && c != "timestamp" ==> Cell(v, i, c) == Cell(t, i, c))
  {
    var u := Parsed(t, parse);
    EnrichedFrames(t, parse);
    var qs := Quarters(Col(u, "timestamp"));
    AssignKeeps(u, "quarter", qs);
    AssignLabels(u, "quarter", qs);
  }

  /** The quartered frame seen through the grouping: row keys are the season keys and the summed
      column is the input's. */
  lemma QuarteredFrame(t: Frame, parse: Parser)
    requires HasSeasonColumns(t)
    ensures var v := Quartered(t, parse);
      && AllIn(["quarter", "category"], v.columns) && "total_sales" in v.columns && |v.rows| == |t.rows|
      && (forall i :: 0 <= i < |t.rows| ==> RowKey(v, i, ["quarter", "category"]) == SeasonKey(t, i, parse))
      && Col(v, "total_sales") == Col(t, "total_sales")
  {
    QuarteredShape(t, parse);
    var v := Quartered(t, parse);
    var keys := ["quarter", "category"];
    forall i | 0 <= i < |t.rows| ensures RowKey(v, i, keys) == SeasonKey(t, i, parse) {
      var k := RowKey(v, i, keys);
      assert k[0] == Cell(v, i, "quarter") && k[1] == Cell(v, i, "category");
    }
    assert forall i :: 0 <= i < |t.rows| ==> Col(v, "total_sales")[i] == Col(t, "total_sales")[i];
  }

  /** The cells a group sums are the season cells of its key. */
  lemma QuarteredCells(t: Frame, parse: Parser, key: seq<Value>)
    requires HasSeasonColumns(t)
    ensures var v := Quartered(t, parse); AllIn(["quarter", "category"], v.columns) && "total_sales" in v.columns
    ensures GroupCells(Quartered(t, parse), ["quarter", "category"], key, "total_sales") == SeasonCells(t, parse, key)
  {
    QuarteredFrame(t, parse);
    var v := Quartered(t, parse);
    var a := seq(|v.rows|, i requires 0 <= i < |v.rows| => RowKey(v, i, ["quarter", "category"]) == key);
    var b := seq(|t.rows|, i requires 0 <= i < |t.rows| => SeasonKey(t, i, parse) == key);
    assert a == b;
  }

  /** The grouping succeeds exactly when timestamp, category and total_sales are there and total_sales
      holds only numbers and missing cells; otherwise it raises KeyError or TypeError. */
  lemma SeasonalOk(t: Frame, parse: Parser)
    ensures SeasonalGrouped(t, parse).Ok? <==> HasSeasonColumns(t) && AllNumOrNull(Col(t, "total_sales"))
    ensures SeasonalGrouped(t, parse).Err? ==> SeasonalGrouped(t, parse).error.KeyError? || SeasonalGrouped(t, parse).error.TypeError?
  {
    if "timestamp" in t.columns {
      QuarteredShape(t, parse);
      var v := Quartered(t, parse);
      var keys := ["quarter", "category"];
      assert SeasonalGrouped(t, parse) == GroupSum(v, keys, "total_sales", "total_sales");
      assert AllIn(keys, v.columns) <==> "category" in t.columns by {
        assert "quarter" in v.columns;
        assert keys[0] == "quarter" && keys[1] == "category";
      }
      assert "total_sales" in v.columns <==> "total_sales" in t.columns;
      if HasSeasonColumns(t) {
        QuarteredFrame(t, parse);
      }
    }
  }

  /** One row per (quarter, category) pair that occurs with a category, none twice, holding the sum of
      that pair's total_sales; a row with an unparsable timestamp counts under quarter "NaT". */
  lemma SeasonalRows(t: Frame, parse: Parser)
    requires SeasonalGrouped(t, parse).Ok?
    ensures HasSeasonColumns(t) && AllNumOrNull(Col(t, "total_sales"))
    ensures var g := SeasonalGrouped(t, parse).value;
      && g.columns == ["quarter", "category", "total_sales"] && g.index == Range(|g.rows|)
      && (forall j :: 0 <= j < |g.rows| ==>
            && |g.rows[j]| == 3 && g.rows[j][1] != Null
            && IsNum(g.rows[j][2]) && AsReal(g.rows[j][2]) == SumReal(SeasonCells(t, parse, g.rows[j][..2])))
      && (forall j, k :: 0 <= j < k < |g.rows| ==> g.rows[j][..2] != g.rows[k][..2])
  {
    SeasonalOk(t, parse);
    var v := Quartered(t, parse);
    var keys := ["quarter", "category"];
    GroupSumRows(v, keys, "total_sales", "total_sales");
    GroupSumTotals(v, keys, "total_sales", "total_sales");
    GroupSumDistinct(v, keys, "total_sales", "total_sales");
    var g := SeasonalGrouped(t, parse).value;
    forall j | 0 <= j < |g.rows| ensures SumReal(GroupCells(v, keys, g.rows[j][..2], "total_sales")) == SumReal(SeasonCells(t, parse, g.rows[j][..2])) {
      QuarteredCells(t, parse, g.rows[j][..2]);
    }
    forall j | 0 <= j < |g.rows| ensures g.rows[j][1] != Null {
      assert g.rows[j][..2][1] == g.rows[j][1];
    }
  }

  /** The key of a quartered row is complete exactly when its category is present. */
  lemma SeasonKeyPresent(t: Frame, parse: Parser)
    requires HasSeasonColumns(t)
    ensures forall i :: 0 <= i < |t.rows| ==> (KeyPresent(SeasonKey(t, i, parse)) <==> Cell(t, i, "category") != Null)
  {
    forall i | 0 <= i < |t.rows| ensures KeyPresent(SeasonKey(t, i, parse)) <==> Cell(t, i, "category") != Null {
      var k := SeasonKey(t, i, parse);
      assert k[0] != Null && k[1] == Cell(t, i, "category");
    }
  }

  /** Every group comes from a row of the input with a category. */
  lemma SeasonalGroupsOccur(t: Frame, parse: Parser)
    requires SeasonalGrouped(t, parse).Ok?
    ensures HasSeasonColumns(t)
    ensures var g := SeasonalGrouped(t, parse).value;
      forall j :: 0 <= j < |g.rows| ==>
        exists i :: 0 <= i < |t.rows| && Cell(t, i, "category") != Null && g.rows[j][..2] == SeasonKey(t, i, parse)
  {
    SeasonalOk(t, parse);
    QuarteredFrame(t, parse);
    SeasonKeyPresent(t, parse);
    var v := Quartered(t, parse);
    var keys := ["quarter", "category"];
    GroupSumRows(v, keys, "total_sales", "total_sales");
    GroupKeysSpec(v, keys);
    var g := SeasonalGrouped(t, parse).value;
    var ks := GroupKeys(v, keys);
    forall j | 0 <= j < |g.rows|
      ensures exists i :: 0 <= i < |t.rows| && Cell(t, i, "category") != Null && g.rows[j][..2] == SeasonKey(t, i, parse)
    {
      assert g.rows[j][..2] == ks[j];
      assert ks[j] in ks;
      var i :| 0 <= i < |v.rows| && KeyPresent(RowKey(v, i, keys)) && ks[j] == RowKey(v, i, keys);
      assert SeasonKey(t, i, parse) == ks[j];
    }
  }

  /** Every row of the input with a category is counted in some group. */
  lemma SeasonalGroupsCover(t: Frame, parse: Parser)
    requires SeasonalGrouped(t, parse).Ok?
    ensures HasSeasonColumns(t)
    ensures var g := SeasonalGrouped(t, parse).value;
      forall i :: 0 <= i < |t.rows| && Cell(t, i, "category") != Null ==>
        exists j :: 0 <= j < |g.rows| && g.rows[j][..2] == SeasonKey(t, i, parse)
  {
    SeasonalOk(t, parse);
    QuarteredFrame(t, parse);
    SeasonKeyPresent(t, parse);
    var v := Quartered(t, parse);
    var keys := ["quarter", "category"];
    GroupSumCovers(v, keys, "total_sales", "total_sales");
  }

  /** total_sales holds non-negative numbers (or missing cells) and at least one non-integer, as a
      float column built from prices does. */
  predicate FloatSales(t: Frame)
    requires "total_sales" in t.columns
  {
    && AllNumOrNull(Col(t, "total_sales")) && !AllInt(Col(t, "total_sales"))
    && forall i :: 0 <= i < |t.rows| && IsNum(Cell(t, i, "total_sales")) ==> AsReal(Cell(t, i, "total_sales")) >= 0.0
  }

  /** A group of non-negative sales sums to a non-negative amount. */
  lemma SeasonCellsNonNegative(t: Frame, parse: Parser, key: seq<Value>)
    requires HasSeasonColumns(t) && FloatSales(t)
    ensures SumReal(SeasonCells(t, parse, key)) >= 0.0
  {
    var cells := SeasonCells(t, parse, key);
    forall k | 0 <= k < |cells| && IsNum(cells[k]) ensures AsReal(cells[k]) >= 0.0 {
      assert cells[k] in cells;
    }
    SumRealNonNegative(cells);
  }

  /** Over float sales the group totals are floats, and over non-negative sales they are non-negative. */
  lemma SeasonalTotals(t: Frame, parse: Parser)
    requires HasSeasonColumns(t) && FloatSales(t)
    ensures SeasonalGrouped(t, parse).Ok?
    ensures var g := SeasonalGrouped(t, parse).value;
      forall j :: 0 <= j < |g.rows| ==> |g.rows[j]| == 3 && g.rows[j][2].Real? && g.rows[j][2].r >= 0.0
  {
    SeasonalOk(t, parse);
    SeasonalRows(t, parse);
    QuarteredFrame(t, parse);
    var v := Quartered(t, parse);
    var keys := ["quarter", "category"];
    GroupSumRows(v, keys, "total_sales", "total_sales");
    var g := SeasonalGrouped(t, parse).value;
    forall j | 0 <= j < |g.rows| ensures g.rows[j][2].Real? && g.rows[j][2].r >= 0.0 {
      SeasonCellsNonNegative(t, parse, g.rows[j][..2]);
    }
  }

  /** The positions of the three labels of a seasonal frame. */
  lemma SeasonalLabels(g: Frame)
    requires g.columns == ["quarter", "category", "total_sales"]
    ensures ExamPrepSeasonalSchema.HasSeasonalColumns(g)
    ensures forall j :: 0 <= j < |g.rows| ==>
      Cell(g, j, "quarter") == g.rows[j][0] && Cell(g, j, "category") == g.rows[j][1] && Cell(g, j, "total_sales") == g.rows[j][2]
  {
    FirstOccurrence(g.columns, "quarter", 0);
    FirstOccurrence(g.columns, "category", 1);
    FirstOccurrence(g.columns, "total_sales", 2);
  }

  /** Over float, non-negative sales, a group's row passes the seasonal schema exactly when its
      category is text. */
  lemma SeasonalRowGood(t: Frame, parse: Parser, j: int)
    requires HasSeasonColumns(t) && FloatSales(t)
    requires SeasonalGrouped(t, parse).Ok? && 0 <= j < |SeasonalGrouped(t, parse).value.rows|
    ensures var g := SeasonalGrouped(t, parse).value;
      && ExamPrepSeasonalSchema.HasSeasonalColumns(g) && |g.rows[j]| == 3
      && (ExamPrepSeasonalSchema.GoodSeasonalRow(g, j) <==> g.rows[j][1].Str?)
  {
    SeasonalRows(t, parse);
    SeasonalTotals(t, parse);
    SeasonalGroupsOccur(t, parse);
    var g := SeasonalGrouped(t, parse).value;
    SeasonalLabels(g);
    var i :| 0 <= i < |t.rows| && Cell(t, i, "category") != Null && g.rows[j][..2] == SeasonKey(t, i, parse);
    assert g.rows[j][0] == g.rows[j][..2][0];
  }

  /** Every category present in the input is text. */
  predicate TextCategories(t: Frame)
    requires "category" in t.columns
  {
    forall i :: 0 <= i < |t.rows| && Cell(t, i, "category") != Null ==> Cell(t, i, "category").Str?
  }

  /** The groups' categories are all text exactly when the input's present categories are. */
  lemma SeasonalCategories(t: Frame, parse: Parser)
    requires SeasonalGrouped(t, parse).Ok?
    ensures HasSeasonColumns(t)
    ensures var g := SeasonalGrouped(t, parse).value;
      (forall j :: 0 <= j < |g.rows| ==> |g.rows[j]| == 3 && g.rows[j][1].Str?) <==> TextCategories(t)
  {
    SeasonalRows(t, parse);
    var g := SeasonalGrouped(t, parse).value;
    if forall j :: 0 <= j < |g.rows| ==> |g.rows[j]| == 3 && g.rows[j][1].Str? {
      GroupsTextCategories(t, parse, g);
    }
    if TextCategories(t) {
      TextCategoryGroups(t, parse, g);
    }
  }

  /** Text categories in every group mean text in every present input category. */
  lemma GroupsTextCategories(t: Frame, parse: Parser, g: Frame)
    requires HasSeasonColumns(t) && SeasonalGrouped(t, parse) == Ok(g)
    requires forall j :: 0 <= j < |g.rows| ==> |g.rows[j]| == 3 && g.rows[j][1].Str?
    ensures TextCategories(t)
  {
    SeasonalRows(t, parse);
    SeasonalGroupsCover(t, parse);
    forall i | 0 <= i < |t.rows| && Cell(t, i, "category") != Null ensures Cell(t, i, "category").Str? {
      var j :| 0 <= j < |g.rows| && g.rows[j][..2] == SeasonKey(t, i, parse);
      assert g.rows[j][1] == g.rows[j][..2][1];
    }
  }

  /** Text in every present input category means text as every group's category. */
  lemma TextCategoryGroups(t: Frame, parse: Parser, g: Frame)
    requires HasSeasonColumns(t) && SeasonalGrouped(t, parse) == Ok(g) && TextCategories(t)
    ensures forall j :: 0 <= j < |g.rows| ==> |g.rows[j]| == 3 && g.rows[j][1].Str?
  {
    SeasonalRows(t, parse);
    SeasonalGroupsOccur(t, parse);
    forall j | 0 <= j < |g.rows| ensures |g.rows[j]| == 3 && g.rows[j][1].Str? {
      var i :| 0 <= i < |t.rows| && Cell(t, i, "category") != Null && g.rows[j][..2] == SeasonKey(t, i, parse);
      assert g.rows[j][1] == g.rows[j][..2][1];
    }
  }

  /** Over float, non-negative sales, seasonal_sales_pattern returns its groups exactly when every
      category present in the input is text. */
  lemma SeasonalAccepted(t: Frame, parse: Parser)
    requires HasSeasonColumns(t) && FloatSales(t)
    ensures SeasonalGrouped(t, parse).Ok?
    ensures SeasonalSalesPatternData(t, parse).Ok? <==> TextCategories(t)
    ensures SeasonalSalesPatternData(t, parse).Ok? ==> SeasonalSalesPatternData(t, parse) == SeasonalGrouped(t, parse)
    ensures SeasonalSalesPatternData(t, parse).Err? ==> SeasonalSalesPatternData(t, parse).error == SchemaError
  {
    SeasonalOk(t, parse);
    var g := SeasonalGrouped(t, parse).value;
    ExamPrepSeasonalSchema.SeasonalSpec(g);
    SeasonalCategories(t, parse);
    forall j | 0 <= j < |g.rows|
      ensures ExamPrepSeasonalSchema.HasSeasonalColumns(g) && |g.rows[j]| == 3
      ensures ExamPrepSeasonalSchema.GoodSeasonalRow(g, j) <==> g.rows[j][1].Str?
    {
      SeasonalRowGood(t, parse, j);
    }
  }

  // ----- revenue_concentration -----

  /** groupby(["region"]).agg(region_revenue=("total_sales", "sum")): one row per region. */
  function RegionRevenue(t: Frame): (r: Result<Frame>)
  {
    GroupSum(t, ["region"], "total_sales", "region_revenue")
  }

  /** The shape of the region table: a region and its revenue, a number, in each row. */
  lemma RegionRevenueShape(t: Frame)
    requires RegionRevenue(t).Ok?
    ensures "region" in t.columns && "total_sales" in t.columns && AllNumOrNull(Col(t, "total_sales"))
    ensures var g := RegionRevenue(t).value;
      && g.columns == ["region", "region_revenue"] && g.index == Range(|g.rows|)
      && (forall j :: 0 <= j < |g.rows| ==>
            && |g.rows[j]| == 2 && g.rows[j][0] != Null && IsNum(g.rows[j][1])
            && Cell(g, j, "region") == g.rows[j][0] && Cell(g, j, "region_revenue") == g.rows[j][1])
      && AllNumOrNull(Col(g, "region_revenue"))
  {
    GroupSumRows(t, ["region"], "total_sales", "region_revenue");
    GroupSumTotals(t, ["region"], "total_sales", "region_revenue");
    var g := RegionRevenue(t).value;
    FirstOccurrence(g.columns, "region", 0);
    FirstOccurrence(g.columns, "region_revenue", 1);
    forall j | 0 <= j < |g.rows| ensures g.rows[j][0] != Null {
      assert g.rows[j][..1][0] == g.rows[j][0];
    }
  }

  /** Each cell divided by d; a missing cell, or a zero d, gives a missing cell. */
  function Scaled(xs: seq<Value>, d: real): (r: seq<Value>)
    requires AllNumOrNull(xs)
    ensures |r| == |xs| && AllNumOrNull(r)
  {
    seq(|xs|, i requires 0 <= i < |xs| => Divide(xs[i], Real(d)))
  }

  /** Dividing every cell by a non-zero d divides the sum by d. */
  lemma {:induction false} ScaledSum(xs: seq<Value>, d: real)
    requires AllNumOrNull(xs) && d != 0.0
    ensures SumReal(Scaled(xs, d)) == SumReal(xs) / d
  {
    if xs != [] {
      var ys := Scaled(xs, d);
      assert ys[1..] == Scaled(xs[1..], d);
      ScaledSum(xs[1..], d);
      var h := if xs[0].Null? then 0.0 else AsReal(xs[0]);
      assert (if ys[0].Null? then 0.0 else AsReal(ys[0])) == h / d;
      assert SumReal(ys) == h / d + SumReal(xs[1..]) / d;
      DivideSum(h, SumReal(xs[1..]), d);
    }
  }

  lemma DivideSum(a: real, b: real, d: real)
    requires d != 0.0
    ensures (a + b) / d == a / d + b / d
  {
  }

  /** Each region revenue over the total revenue: the revenue_share column. */
  function Shares(rev: seq<Value>): (r: seq<Value>)
    requires AllNumOrNull(rev)
    ensures |r| == |rev| && AllNumOrNull(r)
  {
    Scaled(rev, SumReal(rev))
  }

  /** The region table with revenue_share added. */
  function WithShares(g: Frame): (w: Frame)
    requires "region_revenue" in g.columns && AllNumOrNull(Col(g, "region_revenue"))
  {
    Assign(g, "revenue_share", Shares(Col(g, "region_revenue")))
  }

  /** As written: cumulative_share is the running sum of region_revenue. */
  function ConcentrationAsWritten(g: Frame): (w: Frame)
    requires "region_revenue" in g.columns && AllNumOrNull(Col(g, "region_revenue"))
  {
    var rev := Col(g, "region_revenue");
    Assign(WithShares(g), "cumulative_share", CumSum(rev, AllInt(rev)))
  }

  /** As intended: cumulative_share is the running sum of revenue_share. */
  function Concentration(g: Frame): (w: Frame)
    requires "region_revenue" in g.columns && AllNumOrNull(Col(g, "region_revenue"))
  {
    Assign(WithShares(g), "cumulative_share", CumSum(Shares(Col(g, "region_revenue")), false))
  }

  /** revenue_concentration(enriched_df) as written. */
  function RevenueConcentrationAsWritten(t: Frame): (r: Result<Frame>)
  {
    match RegionRevenue(t)
    case Err(x) => Err(x)
    case Ok(g) =>
      RegionRevenueShape(t);
      ExamPrepRevenueSchema.ValidateRevenueConcentration(ConcentrationAsWritten(g))
  }

  /** revenue_concentration(enriched_df) with the running share in place of the running revenue. */
  function RevenueConcentrationData(t: Frame): (r: Result<Frame>)
  {
    match RegionRevenue(t)
    case Err(x) => Err(x)
    case Ok(g) =>
      RegionRevenueShape(t);
      ExamPrepRevenueSchema.ValidateRevenueConcentration(Concentration(g))
  }

  /** One row per region present in the input, in ascending region order, holding the sum of that
      region's total_sales. */
  lemma RegionRevenueRows(t: Frame)
    requires RegionRevenue(t).Ok?
    ensures "region" in t.columns && "total_sales" in t.columns && AllNumOrNull(Col(t, "total_sales"))
    ensures var g := RegionRevenue(t).value;
      && (forall j :: 0 <= j < |g.rows| ==>
            && |g.rows[j]| == 2 && IsNum(g.rows[j][1])
            && AsReal(g.rows[j][1]) == SumReal(GroupCells(t, ["region"], [g.rows[j][0]], "total_sales")))
      && (forall j, k :: 0 <= j < k < |g.rows| ==> ValueLess(g.rows[j][0], g.rows[k][0]))
  {
    RegionRevenueShape(t);
    GroupSumRows(t, ["region"], "total_sales", "region_revenue");
    GroupSumTotals(t, ["region"], "total_sales", "region_revenue");
    GroupKeysSpec(t, ["region"]);
    var g := RegionRevenue(t).value;
    var ks := GroupKeys(t, ["region"]);
    forall j | 0 <= j < |g.rows| ensures g.rows[j][..1] == [g.rows[j][0]] {
    }
    forall j, k | 0 <= j < k < |g.rows| ensures ValueLess(g.rows[j][0], g.rows[k][0]) {
      assert g.rows[j][..1] == ks[j] && g.rows[k][..1] == ks[k];
      assert KeyLess(ks[j], ks[k]);
      assert ks[j][1..] == [] && ks[k][1..] == [];
    }
  }

  /** Over float, non-negative sales every region's revenue is a non-negative float. */
  lemma RegionRevenueNonNegative(t: Frame)
    requires RegionRevenue(t).Ok? && "total_sales" in t.columns && FloatSales(t)
    ensures var g := RegionRevenue(t).value;
      forall j :: 0 <= j < |g.rows| ==> |g.rows[j]| == 2 && g.rows[j][1].Real? && g.rows[j][1].r >= 0.0
  {
    RegionRevenueRows(t);
    GroupSumRows(t, ["region"], "total_sales", "region_revenue");
    var g := RegionRevenue(t).value;
    forall j | 0 <= j < |g.rows| ensures g.rows[j][1].Real? && g.rows[j][1].r >= 0.0 {
      var cells := GroupCells(t, ["region"], [g.rows[j][0]], "total_sales");
      forall k | 0 <= k < |cells| && IsNum(cells[k]) ensures AsReal(cells[k]) >= 0.0 {
        assert cells[k] in cells;
      }
      SumRealNonNegative(cells);
    }
  }

  /** The region row that counts row i of the input: its revenue is at least row i's sale. */
  lemma RegionOfRow(t: Frame, i: int) returns (j: int)
    requires RegionRevenue(t).Ok? && "region" in t.columns && "total_sales" in t.columns && FloatSales(t)
    requires 0 <= i < |t.rows| && Cell(t, i, "region") != Null && IsNum(Cell(t, i, "total_sales"))
    ensures var g := RegionRevenue(t).value;
      && 0 <= j < |g.rows| && |g.rows[j]| == 2 && g.rows[j][0] == Cell(t, i, "region")
      && IsNum(g.rows[j][1]) && AsReal(g.rows[j][1]) >= AsReal(Cell(t, i, "total_sales"))
  {
    var g := RegionRevenue(t).value;
    assert AllIn(["region"], t.columns);
    var key := RowKey(t, i, ["region"]);
    assert key == [Cell(t, i, "region")] && KeyPresent(key);
    assert exists j :: 0 <= j < |g.rows| && g.rows[j][..1] == key by {
      GroupSumCovers(t, ["region"], "total_sales", "region_revenue");
    }
    j :| 0 <= j < |g.rows| && g.rows[j][..1] == key;
    assert |g.rows[j]| == 2 && IsNum(g.rows[j][1])
      && AsReal(g.rows[j][1]) == SumReal(GroupCells(t, ["region"], [g.rows[j][0]], "total_sales")) by {
      RegionRevenueRows(t);
    }
    assert [g.rows[j][0]] == key;
    RegionCellsAtLeast(t, key, i);
  }

  /** The region group of row i sums to at least row i's sale, the other sales being non-negative. */
  lemma RegionCellsAtLeast(t: Frame, key: seq<Value>, i: int)
    requires AllIn(["region"], t.columns) && "total_sales" in t.columns && FloatSales(t)
    requires 0 <= i < |t.rows| && IsNum(Cell(t, i, "total_sales")) && RowKey(t, i, ["region"]) == key
    ensures SumReal(GroupCells(t, ["region"], key, "total_sales")) >= AsReal(Cell(t, i, "total_sales"))
  {
    var keep := seq(|t.rows|, m requires 0 <= m < |t.rows| => RowKey(t, m, ["region"]) == key);
    var cells := GroupCells(t, ["region"], key, "total_sales");
    PickIncludes(Col(t, "total_sales"), keep, i);
    var k :| 0 <= k < |cells| && cells[k] == Cell(t, i, "total_sales");
    forall m | 0 <= m < |cells| && IsNum(cells[m]) ensures AsReal(cells[m]) >= 0.0 {
      assert cells[m] in cells;
    }
    SumRealAtLeast(cells, k);
  }

  /** Every row with a region adds its sale to the total revenue, which is therefore at least that
      sale; the region table then has a row. */
  lemma RevenueTotalAtLeast(t: Frame, i: int)
    requires RegionRevenue(t).Ok? && "region" in t.columns && "total_sales" in t.columns && FloatSales(t)
    requires 0 <= i < |t.rows| && Cell(t, i, "region") != Null && IsNum(Cell(t, i, "total_sales"))
    ensures var g := RegionRevenue(t).value; var rev := Col(g, "region_revenue");
      && "region_revenue" in g.columns && AllNumOrNull(rev) && |g.rows| > 0
      && SumReal(rev) >= AsReal(Cell(t, i, "total_sales"))
  {
    RegionRevenueShape(t);
    RegionRevenueNonNegative(t);
    var j := RegionOfRow(t, i);
    var g := RegionRevenue(t).value;
    var rev := Col(g, "region_revenue");
    assert rev[j] == g.rows[j][1];
    SumRealAtLeast(rev, j);
  }

  /** What revenue_share and cumulative_share write into the region table, cell by cell. */
  lemma ConcentrationCells(g: Frame, cum: seq<Value>)
    requires "region" in g.columns && "region_revenue" in g.columns && AllNumOrNull(Col(g, "region_revenue"))
    requires |cum| == |g.rows|
    ensures var w := Assign(WithShares(g), "cumulative_share", cum);
      && ExamPrepRevenueSchema.HasRevenueColumns(w) && |w.rows| == |g.rows|
      && forall j :: 0 <= j < |g.rows| ==>
        && Cell(w, j, "region") == Cell(g, j, "region")
        && Cell(w, j, "region_revenue") == Cell(g, j, "region_revenue")
        && Cell(w, j, "revenue_share") == Shares(Col(g, "region_revenue"))[j]
        && Cell(w, j, "cumulative_share") == cum[j]
  {
    var sh := Shares(Col(g, "region_revenue"));
    AssignKeeps(g, "revenue_share", sh);
    AssignKeeps(WithShares(g), "cumulative_share", cum);
  }

  /** Over a non-zero total, the shares sum to 1. */
  lemma SharesSum(rev: seq<Value>)
    requires AllNumOrNull(rev) && SumReal(rev) != 0.0
    ensures SumReal(Shares(rev)) == 1.0
  {
    var total := SumReal(rev);
    ScaledSum(rev, total);
    DivSelf(total);
  }

  lemma DivSelf(x: real)
    requires x != 0.0
    ensures x / x == 1.0
  {
  }

  /** Over a non-zero total, each share is a cell over the total, and the running sum of the shares
      at position j is the running revenue through j over the total. */
  lemma SharesSpec(rev: seq<Value>)
    requires AllNumOrNull(rev) && SumReal(rev) != 0.0
    requires forall j :: 0 <= j < |rev| ==> IsNum(rev[j])
    ensures forall j :: 0 <= j < |rev| ==> Shares(rev)[j] == Real(AsReal(rev[j]) / SumReal(rev))
    ensures forall j :: 0 <= j < |rev| ==> CumSum(Shares(rev), false)[j] == Real(SumReal(rev[..j + 1]) / SumReal(rev))
  {
    var total := SumReal(rev);
    var sh := Shares(rev);
    forall j | 0 <= j < |rev| ensures CumSum(sh, false)[j] == Real(SumReal(rev[..j + 1]) / total) {
      assert sh[..j + 1] == Scaled(rev[..j + 1], total);
      ScaledSum(rev[..j + 1], total);
    }
  }

  /** With a non-zero total, each share is the region's revenue over the total, and the intended
      cumulative share of a region is the revenue of it and the regions before it over the total,
      reaching 1 at the last region. */
  lemma ConcentrationShares(g: Frame)
    requires "region" in g.columns && "region_revenue" in g.columns && AllNumOrNull(Col(g, "region_revenue"))
    requires forall j :: 0 <= j < |g.rows| ==> IsNum(Cell(g, j, "region_revenue"))
    requires SumReal(Col(g, "region_revenue")) != 0.0
    ensures var w := Concentration(g); var rev := Col(g, "region_revenue"); var total := SumReal(rev);
      && ExamPrepRevenueSchema.HasRevenueColumns(w) && |w.rows| == |g.rows|
      && (forall j :: 0 <= j < |g.rows| ==>
            && Cell(w, j, "revenue_share") == Real(AsReal(rev[j]) / total)
            && Cell(w, j, "cumulative_share") == Real(SumReal(rev[..j + 1]) / total))
      && (|g.rows| > 0 ==> Cell(w, |g.rows| - 1, "cumulative_share") == Real(1.0))
  {
    var rev := Col(g, "region_revenue");
    var total := SumReal(rev);
    var cum := CumSum(Shares(rev), false);
    ConcentrationCells(g, cum);
    SharesSpec(rev);
    var w := Concentration(g);
    assert w == Assign(WithShares(g), "cumulative_share", cum);
    forall j | 0 <= j < |g.rows|
      ensures Cell(w, j, "revenue_share") == Real(AsReal(rev[j]) / total)
      ensures Cell(w, j, "cumulative_share") == Real(SumReal(rev[..j + 1]) / total)
    {
    }
    if |g.rows| > 0 {
      assert rev[..|g.rows|] == rev;
      DivSelf(total);
    }
  }

  /** As written, the cumulative share of a region is the running revenue itself, reaching the total
      revenue at the last region. */
  lemma ConcentrationAsWrittenCumulative(g: Frame)
    requires "region" in g.columns && "region_revenue" in g.columns && AllNumOrNull(Col(g, "region_revenue"))
    requires forall j :: 0 <= j < |g.rows| ==> Cell(g, j, "region_revenue").Real?
    ensures var w := ConcentrationAsWritten(g); var rev := Col(g, "region_revenue");
      && ExamPrepRevenueSchema.HasRevenueColumns(w) && |w.rows| == |g.rows|
      && (forall j :: 0 <= j < |g.rows| ==> Cell(w, j, "cumulative_share") == Real(SumReal(rev[..j + 1])))
      && (|g.rows| > 0 ==> Cell(w, |g.rows| - 1, "cumulative_share") == Real(SumReal(rev)))
  {
    var rev := Col(g, "region_revenue");
    forall j | 0 <= j < |rev| ensures rev[j].Real? {
      assert rev[j] == Cell(g, j, "region_revenue");
    }
    RunningRevenue(rev);
    ConcentrationCells(g, CumSum(rev, AllInt(rev)));
  }

  /** The running sum of float revenues: float cells, each the sum up to its row, the last the total. */
  lemma RunningRevenue(rev: seq<Value>)
    requires AllNumOrNull(rev) && forall j :: 0 <= j < |rev| ==> rev[j].Real?
    ensures var cum := CumSum(rev, AllInt(rev));
      && (forall j :: 0 <= j < |rev| ==> cum[j] == Real(SumReal(rev[..j + 1])))
      && (|rev| > 0 ==> cum[|rev| - 1] == Real(SumReal(rev)))
  {
    if |rev| > 0 {
      assert !AllInt(rev) by {
        assert !rev[0].Int?;
      }
      assert rev[..|rev|] == rev;
    }
  }

  /** As written, the last cumulative share is the total revenue, and a region whose sales add up to
      more than 1 pushes it above 1. */
  lemma AsWrittenLast(t: Frame, i: int) returns (g: Frame)
    requires "region" in t.columns && "total_sales" in t.columns && FloatSales(t)
    requires 0 <= i < |t.rows| && Cell(t, i, "region") != Null
    requires IsNum(Cell(t, i, "total_sales")) && AsReal(Cell(t, i, "total_sales")) > 1.0
    ensures RegionRevenue(t) == Ok(g) && "region_revenue" in g.columns && AllNumOrNull(Col(g, "region_revenue"))
    ensures var w := ConcentrationAsWritten(g);
      && ExamPrepRevenueSchema.HasRevenueColumns(w) && |w.rows| > 0
      && Cell(w, |w.rows| - 1, "cumulative_share").Real? && Cell(w, |w.rows| - 1, "cumulative_share").r > 1.0
  {
    assert RegionRevenue(t).Ok?;
    g := RegionRevenue(t).value;
    RegionRevenueShape(t);
    RegionRevenueNonNegative(t);
    RevenueTotalAtLeast(t, i);
    ConcentrationAsWrittenCumulative(g);
  }

  /** revenue_concentration as written rejects every input with a region whose sales add up to more
      than 1: the last running revenue is the total, above the [0, 1] the schema demands. */
  lemma AsWrittenRejected(t: Frame, i: int)
    requires "region" in t.columns && "total_sales" in t.columns && FloatSales(t)
    requires 0 <= i < |t.rows| && Cell(t, i, "region") != Null
    requires IsNum(Cell(t, i, "total_sales")) && AsReal(Cell(t, i, "total_sales")) > 1.0
    ensures RevenueConcentrationAsWritten(t) == Err(SchemaError)
  {
    var g := AsWrittenLast(t, i);
    var w := ConcentrationAsWritten(g);
    ExamPrepRevenueSchema.CumulativeShareAboveOneRejected(w, |w.rows| - 1);
  }

  /** Every region present in the input is text. */
  predicate TextRegions(t: Frame)
    requires "region" in t.columns
  {
    forall m :: 0 <= m < |t.rows| && Cell(t, m, "region") != Null ==> Cell(t, m, "region").Str?
  }

  /** Every region row comes from a row of the input with that region. */
  lemma RegionsOccur(t: Frame)
    requires RegionRevenue(t).Ok?
    ensures "region" in t.columns
    ensures var g := RegionRevenue(t).value;
      forall j :: 0 <= j < |g.rows| ==> exists m :: 0 <= m < |t.rows| && Cell(t, m, "region") != Null && g.rows[j][0] == Cell(t, m, "region")
  {
    RegionRevenueShape(t);
    GroupSumRows(t, ["region"], "total_sales", "region_revenue");
    GroupKeysSpec(t, ["region"]);
    var g := RegionRevenue(t).value;
    var ks := GroupKeys(t, ["region"]);
    forall j | 0 <= j < |g.rows|
      ensures exists m :: 0 <= m < |t.rows| && Cell(t, m, "region") != Null && g.rows[j][0] == Cell(t, m, "region")
    {
      assert g.rows[j][..1] == ks[j] && ks[j] in ks;
      var m :| 0 <= m < |t.rows| && KeyPresent(RowKey(t, m, ["region"])) && ks[j] == RowKey(t, m, ["region"]);
      assert g.rows[j][0] == ks[j][0] == Cell(t, m, "region");
    }
  }

  /** A part of a positive whole, over the whole, lies in [0, 1]. */
  lemma Fraction(a: real, total: real)
    requires 0.0 <= a <= total && total > 0.0
    ensures 0.0 <= a / total <= 1.0
  {
    assert a / total * total == a;
  }

  /** A region table of non-negative float revenues with a positive total: a region row with a
      text region passes the revenue-concentration schema once the intended shares are added. */
  lemma ConcentrationRowGood(g: Frame, j: int)
    requires "region" in g.columns && "region_revenue" in g.columns && AllNumOrNull(Col(g, "region_revenue"))
    requires forall k :: 0 <= k < |g.rows| ==> Cell(g, k, "region_revenue").Real? && Cell(g, k, "region_revenue").r >= 0.0
    requires SumReal(Col(g, "region_revenue")) > 0.0
    requires 0 <= j < |g.rows| && Cell(g, j, "region").Str?
    ensures ExamPrepRevenueSchema.HasRevenueColumns(Concentration(g)) && |Concentration(g).rows| == |g.rows|
    ensures ExamPrepRevenueSchema.GoodRevenueRow(Concentration(g), j)
  {
    var rev := Col(g, "region_revenue");
    var total := SumReal(rev);
    assert forall k :: 0 <= k < |rev| && IsNum(rev[k]) ==> AsReal(rev[k]) >= 0.0;
    assert 0.0 <= AsReal(rev[j]) / total <= 1.0 by {
      SumRealAtLeast(rev, j);
      Fraction(AsReal(rev[j]), total);
    }
    assert 0.0 <= SumReal(rev[..j + 1]) / total <= 1.0 by {
      SumRealPrefix(rev, j + 1);
      SumRealNonNegative(rev[..j + 1]);
      Fraction(SumReal(rev[..j + 1]), total);
    }
    var w := Concentration(g);
    assert Cell(w, j, "revenue_share") == Real(AsReal(rev[j]) / total)
      && Cell(w, j, "cumulative_share") == Real(SumReal(rev[..j + 1]) / total) by {
      ConcentrationShares(g);
    }
    assert Cell(w, j, "region") == Cell(g, j, "region") && Cell(w, j, "region_revenue") == rev[j] by {
      ConcentrationCells(g, CumSum(Shares(rev), false));
    }
  }

  /** Over float, non-negative sales with text regions and a positive total, every region row of the
      intended table passes the revenue-concentration schema. */
  lemma RevenueRowGood(t: Frame, i: int, j: int)
    requires "region" in t.columns && "total_sales" in t.columns && FloatSales(t) && TextRegions(t)
    requires 0 <= i < |t.rows| && Cell(t, i, "region") != Null && IsNum(Cell(t, i, "total_sales"))
    requires AsReal(Cell(t, i, "total_sales")) > 0.0
    requires RegionRevenue(t).Ok? && 0 <= j < |RegionRevenue(t).value.rows|
    ensures var g := RegionRevenue(t).value;
      && "region_revenue" in g.columns && AllNumOrNull(Col(g, "region_revenue"))
      && ExamPrepRevenueSchema.HasRevenueColumns(Concentration(g)) && |Concentration(g).rows| == |g.rows|
      && ExamPrepRevenueSchema.GoodRevenueRow(Concentration(g), j)
  {
    RegionRevenueShape(t);
    RegionRevenueNonNegative(t);
    RegionsOccur(t);
    RevenueTotalAtLeast(t, i);
    var g := RegionRevenue(t).value;
    var m :| 0 <= m < |t.rows| && Cell(t, m, "region") != Null && g.rows[j][0] == Cell(t, m, "region");
    ConcentrationRowGood(g, j);
  }

  /** Over float, non-negative sales with text regions and at least one region with a positive sale,
      revenue_concentration with the running share returns its table: one row per region, shares
      and running shares in [0, 1]. */
  lemma RevenueAccepted(t: Frame, i: int)
    requires "region" in t.columns && "total_sales" in t.columns && FloatSales(t) && TextRegions(t)
    requires 0 <= i < |t.rows| && Cell(t, i, "region") != Null && IsNum(Cell(t, i, "total_sales"))
    requires AsReal(Cell(t, i, "total_sales")) > 0.0
    ensures RegionRevenue(t).Ok?
    ensures var g := RegionRevenue(t).value;
      "region_revenue" in g.columns && AllNumOrNull(Col(g, "region_revenue")) && RevenueConcentrationData(t) == Ok(Concentration(g))
  {
    assert RegionRevenue(t).Ok?;
    RegionRevenueShape(t);
    RevenueTotalAtLeast(t, i);
    var g := RegionRevenue(t).value;
    var w := Concentration(g);
    ExamPrepRevenueSchema.RevenueSpec(w);
    forall j | 0 <= j < |g.rows|
      ensures ExamPrepRevenueSchema.HasRevenueColumns(w) && |w.rows| == |g.rows| && ExamPrepRevenueSchema.GoodRevenueRow(w, j)
    {
      RevenueRowGood(t, i, j);
    }
    RevenueRowGood(t, i, 0);
  }
}
