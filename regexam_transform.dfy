/**
 * The transform step of the regular-exam pipeline. transform_sales_data and transform_products_data
 * normalise the column labels of the frame they are given in place (strip, lower-case, blanks to
 * underscores); every later statement rebinds the name to a new frame, so the caller's frame keeps
 * only the new labels. Sales drop every row with a missing cell, keep positive prices and
 * quantities, lower-case the region, parse the timestamp, drop duplicate rows and renumber the
 * index; products drop incomplete rows, parse launch_date and drop duplicate rows.
 *
 * The input validators are used in their advisory reading (they hand the frame back either way); see
 * Schemas.PreValidate, Schemas.AdvisoryPreValidate and RegExamValidateInputs.
 */
module RegExamTransform {
  import opened Results
  import opened Text
  import opened Frames
  import opened DataFrames
  import opened Schemas
  import RegExamInputSchemas
  import RegExamOutputSchemas
  import Patterns

  // ----- column labels -----

  /** A sales label after the normalisation and rename(columns={"qty": "quantity", "time_stamp": "timestamp"}). */
  function SalesLabel(s: string): string {
    var l := SnakeLabel(s);
    if l == "qty" then "quantity" else if l == "time_stamp" then "timestamp" else l
  }

  /** The relabelled sales frame with qty and time_stamp renamed. */
  function Renamed(u: Frame): (v: Frame) {
    Rename(Rename(u, "qty", "quantity"), "time_stamp", "timestamp")
  }

  /** The sales frame the filters see: the caller's frame under the normalised and renamed labels. */
  function SalesView(t: Frame): (v: Frame) {
    Renamed(Relabel(t, SnakeLabel))
  }

  /** Relabelling and renaming rewrite each label by SalesLabel and touch no cell. */
  lemma SalesViewLabels(t: Frame)
    ensures var v := SalesView(t);
      && v.rows == t.rows && v.index == t.index && |v.columns| == |t.columns|
      && forall k :: 0 <= k < |t.columns| ==> v.columns[k] == SalesLabel(t.columns[k])
  {
  }

  /** A label that needs no stripping and has no capital and no blank is its own normalisation. */
  lemma SnakeLabelOfPlain(s: string)
    requires |s| > 0 && !IsSpace(s[0]) && !IsSpace(s[|s| - 1])
    requires forall i :: 0 <= i < |s| ==> !IsUpperLetter(s[i]) && s[i] != ' '
    ensures SnakeLabel(s) == s
  {
    StripOfTrimmed(s);
    assert Lower(s) == s;
  }

  /** The two raw id labels: lower-cased, the blank an underscore. */
  lemma RawIdLabels()
    ensures SnakeLabel("sales id") == "sales_id" && SnakeLabel("proDuct Id") == "product_id"
  {
    StripOfTrimmed("sales id");
    StripOfTrimmed("proDuct Id");
  }

  /** The three other raw sales labels that the normalisation changes. */
  lemma RawValueLabels()
    ensures SnakeLabel("Region") == "region" && SnakeLabel("Price") == "price"
    ensures SnakeLabel("Time stamp") == "time_stamp"
  {
    StripOfTrimmed("Region");
    StripOfTrimmed("Price");
    StripOfTrimmed("Time stamp");
  }

  /** Each raw sales label under SalesLabel. */
  lemma RawSalesLabelValues()
    ensures SalesLabel("sales id") == "sales_id" && SalesLabel("proDuct Id") == "product_id"
    ensures SalesLabel("Region") == "region" && SalesLabel("qty") == "quantity"
    ensures SalesLabel("Price") == "price" && SalesLabel("Time stamp") == "timestamp"
    ensures SalesLabel("discount") == "discount" && SalesLabel("order_status") == "order_status"
  {
    RawIdLabels();
    RawValueLabels();
    SnakeLabelOfPlain("qty");
    SnakeLabelOfPlain("discount");
    SnakeLabelOfPlain("order_status");
  }

  /** The eight raw sales labels of the input schema become, in order, the eight labels of the output
      schema. */
  lemma RawSalesLabels()
    ensures |RegExamInputSchemas.InputSales().columns| == |RegExamOutputSchemas.OutputSales().columns| == 8
    ensures forall k :: 0 <= k < 8 ==>
      SalesLabel(RegExamInputSchemas.InputSales().columns[k].name) == RegExamOutputSchemas.OutputSales().columns[k].name
  {
    RawSalesLabelValues();
    var raw, out := RegExamInputSchemas.InputSales().columns, RegExamOutputSchemas.OutputSales().columns;
    forall k | 0 <= k < 8 ensures SalesLabel(raw[k].name) == out[k].name {
      if k < 4 {
        assert k == 0 || k == 1 || k == 2 || k == 3;
      } else {
        assert k == 4 || k == 5 || k == 6 || k == 7;
      }
    }
  }

  /** The six raw product labels are already normalised: they are the output labels as they stand. */
  lemma RawProductLabels()
    ensures |RegExamInputSchemas.InputProducts().columns| == |RegExamOutputSchemas.OutputProducts().columns| == 6
    ensures forall k :: 0 <= k < 6 ==>
      SnakeLabel(RegExamInputSchemas.InputProducts().columns[k].name) == RegExamOutputSchemas.OutputProducts().columns[k].name
  {
    SnakeLabelOfPlain("product_id");
    SnakeLabelOfPlain("category");
    SnakeLabelOfPlain("brand");
    SnakeLabelOfPlain("rating");
    SnakeLabelOfPlain("in_stock");
    SnakeLabelOfPlain("launch_date");
  }

  // ----- transform_sales_data -----

  /** `.str.lower()` on one cell: text is lower-cased, anything else comes out missing. */
  function LowerCell(x: Value): Value {
    if x.Str? then Str(Lower(x.s)) else Null
  }

  /** dropna() over every column, then the rows with price > 0 and quantity > 0. */
  function SalesFiltered(v: Frame): (r: Result<Frame>)
  {
    var d := DropNa(v);
    if "price" !in d.columns then Err(KeyError("price"))
    else match GreaterMask(Col(d, "price"), 0.0)
      case Err(x) => Err(x)
      case Ok(pm) =>
        if "quantity" !in d.columns then Err(KeyError("quantity"))
        else match GreaterMask(Col(d, "quantity"), 0.0)
          case Err(x) => Err(x)
          case Ok(qm) => Ok(Where(d, And(pm, qm)))
  }

  /** region lower-cased, then timestamp parsed (format="mixed", errors="coerce"). */
  function SalesRecased(f: Frame, parse: Parser): (r: Result<Frame>)
  {
    if "region" !in f.columns then Err(KeyError("region"))
    else
      var g := Assign(f, "region", StrApply(Col(f, "region"), Lower));
      if "timestamp" !in g.columns then Err(KeyError("timestamp"))
      else Ok(Assign(g, "timestamp", ToDates(Col(g, "timestamp"), Mixed, parse)))
  }

  /** drop_duplicates() over whole rows, then reset_index(drop=True). */
  function Deduplicated(s: Frame): (w: Frame)
  {
    ResetIndex(DropDuplicates(s, None, KeepFirst).value)
  }

  /** Everything after the relabelling, up to the output validator. dropna and the row filter keep the
      dtype of region, so `.str.lower()` raises when region as read holds no text. */
  function SalesProcessed(v: Frame, parse: Parser): (r: Result<Frame>)
  {
    match SalesFiltered(v)
    case Err(x) => Err(x)
    case Ok(f) =>
      if "region" in v.columns && !TextColumn(Col(v, "region")) then Err(AttributeError(NoStrAccessor))
      else match SalesRecased(f, parse)
      case Err(x) => Err(x)
      case Ok(s) => Ok(Deduplicated(s))
  }

  /** transform_sales_data(sales_df): the validated frame, or the exception raised. */
  function TransformSalesData(t: Frame, parse: Parser): (r: Result<Frame>)
  {
    match SalesProcessed(SalesView(t), parse)
    case Err(x) => Err(x)
    case Ok(w) => RegExamOutputSchemas.ValidateOutputSales(w)
  }

  /** transform_sales_data(sales_df): the label normalisation changes the caller's frame; every later
      step works on a new frame. */
  method TransformSales(df: DataFrame, parse: Parser) returns (r: Result<Frame>)
    requires df.Valid()
    modifies df
    ensures df.Valid()
    ensures r == TransformSalesData(old(df.Snapshot()), parse)
    ensures df.Snapshot() == Relabel(old(df.Snapshot()), SnakeLabel)
  {
    var checked := AdvisoryPreValidate(RegExamInputSchemas.InputSales(), df.Snapshot());
    df.RelabelWith(SnakeLabel);
    var w := SalesProcessed(Renamed(df.Snapshot()), parse);
    if w.Err? {
      return Err(w.error);
    }
    r := RegExamOutputSchemas.ValidateOutputSales(w.value);
  }

  /** The four columns the steps after dropna read. */
  predicate HasFilterColumns(v: Frame) {
    "price" in v.columns && "quantity" in v.columns && "region" in v.columns && "timestamp" in v.columns
  }

  /** The comparisons with 0 do not raise on row i: a complete row has numbers as price and quantity. */
  predicate Comparable(v: Frame, i: int)
    requires 0 <= i < |v.rows| && "price" in v.columns && "quantity" in v.columns
  {
    NoNull(v.rows[i]) ==> IsNum(Cell(v, i, "price")) && IsNum(Cell(v, i, "quantity"))
  }

  /** Row i survives the filters: no missing cell, a positive price and a positive quantity. */
  predicate Sold(v: Frame, i: int)
    requires 0 <= i < |v.rows| && HasFilterColumns(v)
  {
    NoNull(v.rows[i]) && Positive(Cell(v, i, "price")) && Positive(Cell(v, i, "quantity"))
  }

  function SoldMask(v: Frame): (m: seq<bool>)
    requires HasFilterColumns(v)
    ensures |m| == |v.rows| && forall i :: 0 <= i < |v.rows| ==> m[i] == Sold(v, i)
  {
    seq(|v.rows|, i requires 0 <= i < |v.rows| => Sold(v, i))
  }

  function CompleteMask(v: Frame): (m: seq<bool>)
    ensures |m| == |v.rows| && forall i :: 0 <= i < |v.rows| ==> m[i] == NoNull(v.rows[i])
  {
    seq(|v.rows|, i requires 0 <= i < |v.rows| => NoNull(v.rows[i]))
  }

  /** Row i of v as the statements after the filters leave it: region lower-cased, timestamp parsed. */
  function Cleaned(v: Frame, i: int, parse: Parser): (row: seq<Value>)
    requires 0 <= i < |v.rows| && "region" in v.columns && "timestamp" in v.columns
    ensures |row| == |v.columns|
  {
    var kr, kt := IndexOf(v.columns, "region"), IndexOf(v.columns, "timestamp");
    v.rows[i][kr := LowerCell(v.rows[i][kr])][kt := ToDate(v.rows[i][kt], Mixed, parse)]
  }

  /** The comparisons run on the complete rows: they raise exactly when such a row has a price or a
      quantity that is not a number. */
  lemma FilterOk(v: Frame)
    requires "price" in v.columns && "quantity" in v.columns
    ensures SalesFiltered(v).Ok? <==> forall i :: 0 <= i < |v.rows| ==> Comparable(v, i)
    ensures SalesFiltered(v).Err? ==> SalesFiltered(v).error.TypeError?
  {
    var a := CompleteMask(v);
    var d := DropNa(v);
    assert d == Where(v, a);
    assert SalesFiltered(v).Ok? <==> AllNumOrNull(Col(d, "price")) && AllNumOrNull(Col(d, "quantity"));
    WhereNumOrNull(v, a, "price");
    WhereNumOrNull(v, a, "quantity");
    forall i | 0 <= i < |v.rows|
      ensures Comparable(v, i) <==> (a[i] ==> NumOrNull(Cell(v, i, "price"))) && (a[i] ==> NumOrNull(Cell(v, i, "quantity")))
    {
      assert Cell(v, i, "price") == v.rows[i][IndexOf(v.columns, "price")];
      assert Cell(v, i, "quantity") == v.rows[i][IndexOf(v.columns, "quantity")];
    }
  }

  /** The rows the filters keep are the Sold rows of v, in order. */
  lemma FilterKeeps(v: Frame)
    requires HasFilterColumns(v) && SalesFiltered(v).Ok?
    ensures SalesFiltered(v).value == Where(v, SoldMask(v))
  {
    var a := CompleteMask(v);
    var d := DropNa(v);
    assert d == Where(v, a);
    var pm := GreaterMask(Col(d, "price"), 0.0).value;
    var qm := GreaterMask(Col(d, "quantity"), 0.0).value;
    var b := And(pm, qm);
    assert SalesFiltered(v).value == Where(d, b);
    var kp, kq := IndexOf(v.columns, "price"), IndexOf(v.columns, "quantity");
    var q := (row: seq<Value>) => kp < |row| && kq < |row| && Positive(row[kp]) && Positive(row[kq]);
    forall p | 0 <= p < |b| ensures b[p] == q(d.rows[p]) {
      assert Cell(d, p, "price") == d.rows[p][kp] && Cell(d, p, "quantity") == d.rows[p][kq];
    }
    var c := SoldMask(v);
    forall i | 0 <= i < |c| ensures c[i] == (a[i] && q(v.rows[i])) {
      assert Cell(v, i, "price") == v.rows[i][kp] && Cell(v, i, "quantity") == v.rows[i][kq];
    }
    WhereTwice(v, a, b, q, c);
  }

  /** Lower-casing region and parsing timestamp never fail once both are columns, and turn row p into
      Cleaned of the same row. */
  lemma RecasedRows(f: Frame, parse: Parser)
    requires "region" in f.columns && "timestamp" in f.columns
    ensures SalesRecased(f, parse).Ok?
    ensures var s := SalesRecased(f, parse).value;
      && s.columns == f.columns && s.index == f.index && |s.rows| == |f.rows|
      && forall p :: 0 <= p < |f.rows| ==> s.rows[p] == Cleaned(f, p, parse)
  {
    var g := Assign(f, "region", StrApply(Col(f, "region"), Lower));
    assert g.columns == f.columns;
    var s := Assign(g, "timestamp", ToDates(Col(g, "timestamp"), Mixed, parse));
    assert SalesRecased(f, parse) == Ok(s);
    var kr, kt := IndexOf(f.columns, "region"), IndexOf(f.columns, "timestamp");
    forall p | 0 <= p < |f.rows| ensures s.rows[p] == Cleaned(f, p, parse) {
      assert g.rows[p] == f.rows[p][kr := LowerCell(f.rows[p][kr])];
    }
  }

  /** Cleaning commutes with the row filter: row p of the cleaned filtered frame is Cleaned of the row
      of v it came from. */
  lemma CleanedWhere(v: Frame, keep: seq<bool>, p: int, parse: Parser)
    requires |keep| == |v.rows| && "region" in v.columns && "timestamp" in v.columns
    requires 0 <= p < |Where(v, keep).rows|
    ensures |Kept(keep)| == |Where(v, keep).rows| && 0 <= Kept(keep)[p] < |v.rows| && keep[Kept(keep)[p]]
    ensures Cleaned(Where(v, keep), p, parse) == Cleaned(v, Kept(keep)[p], parse)
  {
    WhereAt(v, keep, p);
  }

  /** The frame before drop_duplicates: exactly the Sold rows of v, cleaned, in order. */
  lemma SalesRecasedSpec(v: Frame, parse: Parser)
    requires HasFilterColumns(v) && SalesFiltered(v).Ok?
    ensures SalesRecased(SalesFiltered(v).value, parse).Ok?
    ensures var s := SalesRecased(SalesFiltered(v).value, parse).value; var m := SoldMask(v);
      && s.columns == v.columns && |s.rows| == |Kept(m)|
      && (forall p :: 0 <= p < |s.rows| ==> 0 <= Kept(m)[p] < |v.rows| && Sold(v, Kept(m)[p]) && s.rows[p] == Cleaned(v, Kept(m)[p], parse))
      && (forall i :: 0 <= i < |v.rows| && Sold(v, i) ==> exists p :: 0 <= p < |s.rows| && Kept(m)[p] == i)
  {
    FilterKeeps(v);
    var m := SoldMask(v);
    var f := Where(v, m);
    RecasedRows(f, parse);
    var s := SalesRecased(f, parse).value;
    KeptSpec(v.rows, m);
    forall p | 0 <= p < |s.rows|
      ensures 0 <= Kept(m)[p] < |v.rows| && Sold(v, Kept(m)[p]) && s.rows[p] == Cleaned(v, Kept(m)[p], parse)
    {
      CleanedWhere(v, m, p, parse);
    }
    forall i | 0 <= i < |v.rows| && Sold(v, i) ensures exists p :: 0 <= p < |s.rows| && Kept(m)[p] == i {
      assert i in Kept(m);
    }
  }

  /** drop_duplicates() over whole rows: no row twice, every row of s still there, and each remaining
      row comes with the index label it had in s. */
  lemma DistinctRows(s: Frame)
    ensures DropDuplicates(s, None, KeepFirst).Ok?
    ensures var e := DropDuplicates(s, None, KeepFirst).value;
      && e.columns == s.columns
      && (forall p, q :: 0 <= p < q < |e.rows| ==> e.rows[p] != e.rows[q])
      && (forall p :: 0 <= p < |e.rows| ==> exists k :: 0 <= k < |s.rows| && e.rows[p] == s.rows[k] && e.index[p] == s.index[k])
      && (forall k :: 0 <= k < |s.rows| ==> s.rows[k] in e.rows)
  {
    var keep := seq(|s.rows|, k requires 0 <= k < |s.rows| => Survives(s, k, None, KeepFirst));
    var e := DropDuplicates(s, None, KeepFirst).value;
    assert e == Where(s, keep);
    DropDuplicatesSpec(s, None);
    assert forall p :: 0 <= p < |e.rows| ==> DupKey(e, p, None) == e.rows[p];
    assert forall k :: 0 <= k < |s.rows| ==> DupKey(s, k, None) == s.rows[k];
    forall p | 0 <= p < |e.rows| ensures exists k :: 0 <= k < |s.rows| && e.rows[p] == s.rows[k] && e.index[p] == s.index[k] {
      WhereAt(s, keep, p);
    }
  }

  /** Which renamed frames get through transform_sales_data's steps: price, quantity, region and
      timestamp must be columns (KeyError otherwise), the comparisons with 0 must not raise (TypeError
      otherwise) and region must hold text (AttributeError otherwise, once the filters went through). */
  lemma SalesProcessedOk(v: Frame, parse: Parser)
    ensures SalesProcessed(v, parse).Ok? <==>
      HasFilterColumns(v) && TextColumn(Col(v, "region")) && forall i :: 0 <= i < |v.rows| ==> Comparable(v, i)
    ensures SalesProcessed(v, parse).Err? ==>
      SalesProcessed(v, parse).error.KeyError? || SalesProcessed(v, parse).error.TypeError? || SalesProcessed(v, parse).error.AttributeError?
    ensures HasFilterColumns(v) && (forall i :: 0 <= i < |v.rows| ==> Comparable(v, i)) && !TextColumn(Col(v, "region")) ==>
      SalesProcessed(v, parse) == Err(AttributeError(NoStrAccessor))
    ensures HasFilterColumns(v) && TextColumn(Col(v, "region")) && SalesProcessed(v, parse).Err? ==> SalesProcessed(v, parse).error.TypeError?
  {
    if "price" in v.columns && "quantity" in v.columns {
      FilterOk(v);
      if SalesFiltered(v).Ok? && HasFilterColumns(v) {
        SalesRecasedSpec(v, parse);
      }
    }
  }

  /** The sales transform's result: the Sold rows of v, each cleaned (region lower-cased, timestamp
      parsed), every such row present, no row twice, and the index renumbered 0..n-1. */
  lemma SalesOutput(v: Frame, parse: Parser)
    requires SalesProcessed(v, parse).Ok?
    ensures HasFilterColumns(v)
    ensures var w := SalesProcessed(v, parse).value;
      && w.columns == v.columns && w.index == Range(|w.rows|)
      && (forall p, q :: 0 <= p < q < |w.rows| ==> w.rows[p] != w.rows[q])
      && (forall p :: 0 <= p < |w.rows| ==> CleanedFrom(v, parse, w, p))
      && (forall i :: 0 <= i < |v.rows| && Sold(v, i) ==> Cleaned(v, i, parse) in w.rows)
  {
    SalesProcessedOk(v, parse);
    SalesRecasedSpec(v, parse);
    var m := SoldMask(v);
    var s := SalesRecased(SalesFiltered(v).value, parse).value;
    var w := SalesProcessed(v, parse).value;
    assert w == Deduplicated(s);
    DistinctRows(s);
    forall p | 0 <= p < |w.rows| ensures CleanedFrom(v, parse, w, p) {
      var k :| 0 <= k < |s.rows| && w.rows[p] == s.rows[k];
      assert w.rows[p] == Cleaned(v, Kept(m)[k], parse);
    }
    forall i | 0 <= i < |v.rows| && Sold(v, i) ensures Cleaned(v, i, parse) in w.rows {
      var k :| 0 <= k < |s.rows| && Kept(m)[k] == i;
      assert s.rows[k] in w.rows;
    }
  }

  /** Row p of w is a Sold row of v, cleaned. */
  predicate CleanedFrom(v: Frame, parse: Parser, w: Frame, p: int)
    requires HasFilterColumns(v) && 0 <= p < |w.rows|
  {
    exists i :: 0 <= i < |v.rows| && Sold(v, i) && w.rows[p] == Cleaned(v, i, parse)
  }

  /** The cells of a row equal to Cleaned(v, i): region lower-cased, timestamp parsed, the rest as in v. */
  lemma CleanedCells(v: Frame, i: int, w: Frame, p: int, parse: Parser)
    requires HasFilterColumns(v) && 0 <= i < |v.rows| && 0 <= p < |w.rows|
    requires w.columns == v.columns && w.rows[p] == Cleaned(v, i, parse)
    ensures Cell(w, p, "region") == LowerCell(Cell(v, i, "region"))
    ensures Cell(w, p, "timestamp") == ToDate(Cell(v, i, "timestamp"), Mixed, parse)
    ensures forall c :: c in v.columns && c != "region" && c != "timestamp" ==> Cell(w, p, c) == Cell(v, i, c)
  {
    forall c | c in v.columns && c != "region" && c != "timestamp" ensures Cell(w, p, c) == Cell(v, i, c) {
      var k := IndexOf(v.columns, c);
      assert k != IndexOf(v.columns, "region") && k != IndexOf(v.columns, "timestamp");
    }
  }

  /** Row p of the result comes from a Sold row i of v: no cell of it but region and timestamp can be
      missing, price and quantity are positive, region is that row's region lower-cased (missing if it
      was not text), timestamp is its timestamp parsed. */
  lemma SalesSource(v: Frame, parse: Parser, p: int) returns (i: int)
    requires SalesProcessed(v, parse).Ok? && 0 <= p < |SalesProcessed(v, parse).value.rows|
    ensures HasFilterColumns(v) && 0 <= i < |v.rows| && Sold(v, i)
    ensures var w := SalesProcessed(v, parse).value;
      && w.columns == v.columns && w.rows[p] == Cleaned(v, i, parse)
      && Positive(Cell(w, p, "price")) && Positive(Cell(w, p, "quantity"))
      && Cell(w, p, "region") == LowerCell(Cell(v, i, "region"))
      && Cell(w, p, "timestamp") == ToDate(Cell(v, i, "timestamp"), Mixed, parse)
      && forall c :: c in w.columns && c != "region" && c != "timestamp" ==> Cell(w, p, c) == Cell(v, i, c) && Cell(w, p, c) != Null
  {
    var w := SalesProcessed(v, parse).value;
    assert HasFilterColumns(v) && w.columns == v.columns && CleanedFrom(v, parse, w, p) by {
      SalesOutput(v, parse);
    }
    i :| 0 <= i < |v.rows| && Sold(v, i) && w.rows[p] == Cleaned(v, i, parse);
    CleanedCells(v, i, w, p, parse);
    forall c | c in v.columns ensures Cell(v, i, c) != Null {
      assert Cell(v, i, c) == v.rows[i][IndexOf(v.columns, c)];
    }
  }

  /** Every region left in the result holds no capital letter. */
  lemma RegionLowered(v: Frame, parse: Parser, p: int)
    requires SalesProcessed(v, parse).Ok? && 0 <= p < |SalesProcessed(v, parse).value.rows|
    ensures var w := SalesProcessed(v, parse).value;
      "region" in w.columns && (Cell(w, p, "region").Str? ==> forall k :: 0 <= k < |Cell(w, p, "region").s| ==> !IsUpperLetter(Cell(w, p, "region").s[k]))
  {
    var i := SalesSource(v, parse, p);
    if Cell(v, i, "region").Str? {
      LowerSpec(Cell(v, i, "region").s);
    }
  }

  /** What a Sold row of v needs to pass the output sales schema once cleaned: positive integer ids,
      an integer quantity, a float price, a region with a letter, a timestamp that parses, a float
      discount in [0, 1] and a text order_status. */
  predicate ReadySale(v: Frame, i: int, parse: Parser)
    requires 0 <= i < |v.rows| && RegExamOutputSchemas.HasSalesColumns(v)
  {
    && Cell(v, i, "sales_id").Int? && Cell(v, i, "sales_id").i > 0
    && Cell(v, i, "product_id").Int? && Cell(v, i, "product_id").i > 0
    && Cell(v, i, "region").Str? && HasLetter(Cell(v, i, "region").s)
    && Cell(v, i, "quantity").Int? && Cell(v, i, "price").Real?
    && ToDate(Cell(v, i, "timestamp"), Mixed, parse).Date?
    && Cell(v, i, "discount").Real? && 0.0 <= Cell(v, i, "discount").r <= 1.0
    && Cell(v, i, "order_status").Str?
  }

  /** A cleaned Sold row is a good output sales row exactly when its source row is ReadySale. */
  lemma CleanedAccepted(v: Frame, i: int, w: Frame, p: int, parse: Parser)
    requires RegExamOutputSchemas.HasSalesColumns(v) && 0 <= i < |v.rows| && Sold(v, i) && 0 <= p < |w.rows|
    requires w.columns == v.columns && w.rows[p] == Cleaned(v, i, parse)
    ensures RegExamOutputSchemas.HasSalesColumns(w)
    ensures RegExamOutputSchemas.GoodSalesRow(w, p) <==> ReadySale(v, i, parse)
  {
    CleanedCells(v, i, w, p, parse);
    if Cell(v, i, "region").Str? {
      LowerIsLowerStr(Cell(v, i, "region").s);
    }
  }

  /** validate_output_sales_schema accepts the result exactly when all eight cleaned columns are
      present and every Sold row of v is ReadySale: positivity of price and quantity always holds
      after the filters, and duplicates do not matter. */
  lemma SalesAccepted(v: Frame, parse: Parser)
    requires SalesProcessed(v, parse).Ok?
    ensures RegExamOutputSchemas.ValidateOutputSales(SalesProcessed(v, parse).value).Ok? <==>
      && RegExamOutputSchemas.HasSalesColumns(v)
      && forall i :: 0 <= i < |v.rows| && Sold(v, i) ==> ReadySale(v, i, parse)
  {
    var w := SalesProcessed(v, parse).value;
    SalesOutput(v, parse);
    RegExamOutputSchemas.OutputSalesSpec(w);
    if RegExamOutputSchemas.HasSalesColumns(v) {
      if forall i :: 0 <= i < |v.rows| && Sold(v, i) ==> ReadySale(v, i, parse) {
        ReadySalesGood(v, parse);
      }
      if forall p :: 0 <= p < |w.rows| ==> RegExamOutputSchemas.GoodSalesRow(w, p) {
        GoodSalesReady(v, parse);
      }
    }
  }

  /** When every Sold row is ReadySale, every row of the result is a good output sales row. */
  lemma ReadySalesGood(v: Frame, parse: Parser)
    requires SalesProcessed(v, parse).Ok? && RegExamOutputSchemas.HasSalesColumns(v)
    requires forall i :: 0 <= i < |v.rows| && Sold(v, i) ==> ReadySale(v, i, parse)
    ensures RegExamOutputSchemas.HasSalesColumns(SalesProcessed(v, parse).value)
    ensures forall p :: 0 <= p < |SalesProcessed(v, parse).value.rows| ==> RegExamOutputSchemas.GoodSalesRow(SalesProcessed(v, parse).value, p)
  {
    var w := SalesProcessed(v, parse).value;
    SalesOutput(v, parse);
    forall p | 0 <= p < |w.rows| ensures RegExamOutputSchemas.GoodSalesRow(w, p) {
      assert CleanedFrom(v, parse, w, p);
      var i :| 0 <= i < |v.rows| && Sold(v, i) && w.rows[p] == Cleaned(v, i, parse);
      CleanedAccepted(v, i, w, p, parse);
    }
  }

  /** When every row of the result is a good output sales row, every Sold row is ReadySale. */
  lemma GoodSalesReady(v: Frame, parse: Parser)
    requires SalesProcessed(v, parse).Ok? && RegExamOutputSchemas.HasSalesColumns(v)
    requires SalesProcessed(v, parse).value.columns == v.columns
    requires forall p :: 0 <= p < |SalesProcessed(v, parse).value.rows| ==> RegExamOutputSchemas.GoodSalesRow(SalesProcessed(v, parse).value, p)
    ensures forall i :: 0 <= i < |v.rows| && Sold(v, i) ==> ReadySale(v, i, parse)
  {
    var w := SalesProcessed(v, parse).value;
    SalesOutput(v, parse);
    forall i | 0 <= i < |v.rows| && Sold(v, i) ensures ReadySale(v, i, parse) {
      var p :| 0 <= p < |w.rows| && w.rows[p] == Cleaned(v, i, parse);
      CleanedAccepted(v, i, w, p, parse);
    }
  }

  /** A Sold row whose timestamp does not parse keeps a missing timestamp (dropna ran before the
      parse), so the output schema rejects the whole frame. */
  lemma UnparsableRejected(t: Frame, parse: Parser, i: int)
    requires SalesProcessed(SalesView(t), parse).Ok? && HasFilterColumns(SalesView(t))
    requires 0 <= i < |SalesView(t).rows| && Sold(SalesView(t), i)
    requires ToDate(Cell(SalesView(t), i, "timestamp"), Mixed, parse) == Null
    ensures TransformSalesData(t, parse) == Err(SchemaError)
  {
    var v := SalesView(t);
    SalesAccepted(v, parse);
  }

  // ----- transform_products_data -----

  /** launch_date parsed (format="mixed", errors="coerce"). */
  function Launched(e: Frame, parse: Parser): (r: Result<Frame>)
  {
    if "launch_date" !in e.columns then Err(KeyError("launch_date"))
    else Ok(Assign(e, "launch_date", ToDates(Col(e, "launch_date"), Mixed, parse)))
  }

  /** Everything after the relabelling, up to the output validator: dropna(), the parse,
      drop_duplicates(). The index is not renumbered. */
  function ProductsProcessed(v: Frame, parse: Parser): (r: Result<Frame>)
  {
    match Launched(DropNa(v), parse)
    case Err(x) => Err(x)
    case Ok(e) => DropDuplicates(e, None, KeepFirst)
  }

  /** transform_products_data(products_df): the validated frame, or the exception raised. */
  function TransformProductsData(t: Frame, parse: Parser): (r: Result<Frame>)
  {
    match ProductsProcessed(Relabel(t, SnakeLabel), parse)
    case Err(x) => Err(x)
    case Ok(w) => RegExamOutputSchemas.ValidateOutputProducts(w)
  }

  /** transform_products_data(products_df): the label normalisation changes the caller's frame; every
      later step works on a new frame. */
  method TransformProducts(df: DataFrame, parse: Parser) returns (r: Result<Frame>)
    requires df.Valid()
    modifies df
    ensures df.Valid()
    ensures r == TransformProductsData(old(df.Snapshot()), parse)
    ensures df.Snapshot() == Relabel(old(df.Snapshot()), SnakeLabel)
  {
    var checked := AdvisoryPreValidate(RegExamInputSchemas.InputProducts(), df.Snapshot());
    df.RelabelWith(SnakeLabel);
    var w := ProductsProcessed(df.Snapshot(), parse);
    if w.Err? {
      return Err(w.error);
    }
    r := RegExamOutputSchemas.ValidateOutputProducts(w.value);
  }

  /** Row i of v with its launch_date parsed. */
  function LaunchRow(v: Frame, i: int, parse: Parser): (row: seq<Value>)
    requires 0 <= i < |v.rows| && "launch_date" in v.columns
    ensures |row| == |v.columns|
  {
    var k := IndexOf(v.columns, "launch_date");
    v.rows[i][k := ToDate(v.rows[i][k], Mixed, parse)]
  }

  /** The products steps fail only when launch_date is not a column (KeyError), and keep the labels. */
  lemma ProductsProcessedOk(v: Frame, parse: Parser)
    ensures ProductsProcessed(v, parse).Ok? <==> "launch_date" in v.columns
    ensures ProductsProcessed(v, parse).Err? ==> ProductsProcessed(v, parse).error == KeyError("launch_date")
    ensures ProductsProcessed(v, parse).Ok? ==> ProductsProcessed(v, parse).value.columns == v.columns
  {
    if "launch_date" in v.columns {
      var d := DropNa(v);
      AssignKeeps(d, "launch_date", ToDates(Col(d, "launch_date"), Mixed, parse));
    }
  }

  /** The frame before drop_duplicates: the complete rows of v, launch_date parsed, with their labels. */
  lemma LaunchedRows(v: Frame, parse: Parser)
    requires "launch_date" in v.columns
    ensures Launched(DropNa(v), parse).Ok?
    ensures var e := Launched(DropNa(v), parse).value; var m := CompleteMask(v);
      && e.columns == v.columns && |e.rows| == |Kept(m)|
      && (forall q :: 0 <= q < |e.rows| ==>
            0 <= Kept(m)[q] < |v.rows| && NoNull(v.rows[Kept(m)[q]])
            && e.rows[q] == LaunchRow(v, Kept(m)[q], parse) && e.index[q] == v.index[Kept(m)[q]])
      && (forall i :: 0 <= i < |v.rows| && NoNull(v.rows[i]) ==> exists q :: 0 <= q < |e.rows| && Kept(m)[q] == i)
  {
    var m := CompleteMask(v);
    var d := DropNa(v);
    assert d == Where(v, m);
    var e := Assign(d, "launch_date", ToDates(Col(d, "launch_date"), Mixed, parse));
    assert Launched(d, parse) == Ok(e);
    KeptSpec(v.rows, m);
    forall q | 0 <= q < |e.rows|
      ensures 0 <= Kept(m)[q] < |v.rows| && NoNull(v.rows[Kept(m)[q]])
      ensures e.rows[q] == LaunchRow(v, Kept(m)[q], parse) && e.index[q] == v.index[Kept(m)[q]]
    {
      WhereAt(v, m, q);
    }
    forall i | 0 <= i < |v.rows| && NoNull(v.rows[i]) ensures exists q :: 0 <= q < |e.rows| && Kept(m)[q] == i {
      assert i in Kept(m);
    }
  }

  /** The products transform's result: the complete rows of v with launch_date parsed, every such row
      present, no row twice, each with the index label it had in v. */
  lemma ProductsOutput(v: Frame, parse: Parser)
    requires ProductsProcessed(v, parse).Ok?
    ensures "launch_date" in v.columns
    ensures var w := ProductsProcessed(v, parse).value;
      && w.columns == v.columns
      && (forall p, q :: 0 <= p < q < |w.rows| ==> w.rows[p] != w.rows[q])
      && (forall p :: 0 <= p < |w.rows| ==> LaunchedFrom(v, parse, w, p))
      && (forall i :: 0 <= i < |v.rows| && NoNull(v.rows[i]) ==> LaunchRow(v, i, parse) in w.rows)
  {
    ProductsProcessedOk(v, parse);
    var e := Launched(DropNa(v), parse).value;
    var w := ProductsProcessed(v, parse).value;
    assert DropDuplicates(e, None, KeepFirst) == Ok(w);
    assert forall p, q :: 0 <= p < q < |w.rows| ==> w.rows[p] != w.rows[q] by {
      DistinctRows(e);
    }
    forall p | 0 <= p < |w.rows| ensures LaunchedFrom(v, parse, w, p) {
      var i := LaunchedSource(v, parse, e, w, p);
    }
    forall i | 0 <= i < |v.rows| && NoNull(v.rows[i]) ensures LaunchRow(v, i, parse) in w.rows {
      LaunchedCovered(v, parse, e, w, i);
    }
  }

  /** Row p of w is a complete row of v, launch_date parsed, under the label it had in v. */
  predicate LaunchedFrom(v: Frame, parse: Parser, w: Frame, p: int)
    requires "launch_date" in v.columns && 0 <= p < |w.rows|
  {
    exists i :: 0 <= i < |v.rows| && NoNull(v.rows[i]) && w.rows[p] == LaunchRow(v, i, parse) && w.index[p] == v.index[i]
  }

  /** A row left by drop_duplicates over the launched rows e of v is a complete row of v, launch_date
      parsed, with its label. */
  lemma LaunchedSource(v: Frame, parse: Parser, e: Frame, w: Frame, p: int) returns (i: int)
    requires "launch_date" in v.columns
    requires Launched(DropNa(v), parse) == Ok(e) && DropDuplicates(e, None, KeepFirst) == Ok(w)
    requires 0 <= p < |w.rows|
    ensures 0 <= i < |v.rows| && NoNull(v.rows[i]) && w.rows[p] == LaunchRow(v, i, parse) && w.index[p] == v.index[i]
  {
    LaunchedRows(v, parse);
    DistinctRows(e);
    var m := CompleteMask(v);
    var q :| 0 <= q < |e.rows| && w.rows[p] == e.rows[q] && w.index[p] == e.index[q];
    i := Kept(m)[q];
  }

  /** Every complete row of v, launch_date parsed, is left by drop_duplicates. */
  lemma LaunchedCovered(v: Frame, parse: Parser, e: Frame, w: Frame, i: int)
    requires "launch_date" in v.columns
    requires Launched(DropNa(v), parse) == Ok(e) && DropDuplicates(e, None, KeepFirst) == Ok(w)
    requires 0 <= i < |v.rows| && NoNull(v.rows[i])
    ensures LaunchRow(v, i, parse) in w.rows
  {
    LaunchedRows(v, parse);
    DistinctRows(e);
    var m := CompleteMask(v);
    var q :| 0 <= q < |e.rows| && Kept(m)[q] == i;
    assert e.rows[q] in w.rows;
  }

  /** The cells of a row equal to LaunchRow(v, i): launch_date parsed, every other cell as in v and
      present when row i of v is complete. */
  lemma LaunchCells(v: Frame, i: int, w: Frame, p: int, parse: Parser)
    requires "launch_date" in v.columns && 0 <= i < |v.rows| && 0 <= p < |w.rows|
    requires w.columns == v.columns && w.rows[p] == LaunchRow(v, i, parse)
    ensures Cell(w, p, "launch_date") == ToDate(Cell(v, i, "launch_date"), Mixed, parse)
    ensures forall c :: c in v.columns && c != "launch_date" ==> Cell(w, p, c) == Cell(v, i, c)
    ensures NoNull(v.rows[i]) ==> forall c :: c in v.columns && c != "launch_date" ==> Cell(w, p, c) != Null
  {
    forall c | c in v.columns && c != "launch_date" ensures Cell(w, p, c) == Cell(v, i, c) {
      assert IndexOf(v.columns, c) != IndexOf(v.columns, "launch_date");
    }
    if NoNull(v.rows[i]) {
      forall c | c in v.columns ensures Cell(v, i, c) != Null {
        assert Cell(v, i, c) == v.rows[i][IndexOf(v.columns, c)];
      }
    }
  }

  /** What a complete input product row needs to pass the output products schema once its launch_date
      is parsed: a positive integer id, a capitalised category, a BrandX brand, a float rating in
      [0, 5], a boolean in_stock and a launch_date that parses. */
  predicate ReadyProduct(v: Frame, i: int, parse: Parser)
    requires 0 <= i < |v.rows| && RegExamOutputSchemas.HasProductColumns(v)
  {
    && Cell(v, i, "product_id").Int? && Cell(v, i, "product_id").i > 0
    && Cell(v, i, "category").Str? && |Cell(v, i, "category").s| > 0 && IsUpperLetter(Cell(v, i, "category").s[0])
    && Cell(v, i, "brand").Str? && Patterns.Matches(Patterns.BrandLetter, Cell(v, i, "brand").s)
    && Cell(v, i, "rating").Real? && 0.0 <= Cell(v, i, "rating").r <= 5.0
    && Cell(v, i, "in_stock").Bool?
    && ToDate(Cell(v, i, "launch_date"), Mixed, parse).Date?
  }

  /** A parsed row is a good output product row exactly when its source row is ReadyProduct. */
  lemma LaunchAccepted(v: Frame, i: int, w: Frame, p: int, parse: Parser)
    requires RegExamOutputSchemas.HasProductColumns(v) && 0 <= i < |v.rows| && 0 <= p < |w.rows|
    requires w.columns == v.columns && w.rows[p] == LaunchRow(v, i, parse)
    ensures RegExamOutputSchemas.HasProductColumns(w)
    ensures RegExamOutputSchemas.GoodProductRow(w, p) <==> ReadyProduct(v, i, parse)
  {
    LaunchCells(v, i, w, p, parse);
  }

  /** validate_output_products_schema accepts the result exactly when all six product columns are
      present and every complete row of the relabelled frame is ReadyProduct. */
  lemma ProductsAccepted(v: Frame, parse: Parser)
    requires ProductsProcessed(v, parse).Ok?
    ensures RegExamOutputSchemas.ValidateOutputProducts(ProductsProcessed(v, parse).value).Ok? <==>
      && RegExamOutputSchemas.HasProductColumns(v)
      && forall i :: 0 <= i < |v.rows| && NoNull(v.rows[i]) ==> ReadyProduct(v, i, parse)
  {
    var w := ProductsProcessed(v, parse).value;
    ProductsOutput(v, parse);
    RegExamOutputSchemas.OutputProductsSpec(w);
    if RegExamOutputSchemas.HasProductColumns(v) {
      if forall i :: 0 <= i < |v.rows| && NoNull(v.rows[i]) ==> ReadyProduct(v, i, parse) {
        forall p | 0 <= p < |w.rows| ensures RegExamOutputSchemas.GoodProductRow(w, p) {
          assert LaunchedFrom(v, parse, w, p);
          var i :| 0 <= i < |v.rows| && NoNull(v.rows[i]) && w.rows[p] == LaunchRow(v, i, parse) && w.index[p] == v.index[i];
          LaunchAccepted(v, i, w, p, parse);
        }
      }
      if forall p :: 0 <= p < |w.rows| ==> RegExamOutputSchemas.GoodProductRow(w, p) {
        forall i | 0 <= i < |v.rows| && NoNull(v.rows[i]) ensures ReadyProduct(v, i, parse) {
          var p :| 0 <= p < |w.rows| && w.rows[p] == LaunchRow(v, i, parse);
          LaunchAccepted(v, i, w, p, parse);
        }
      }
    }
  }

  /** A complete product row whose launch_date does not parse keeps a missing launch_date, so the
      output schema rejects the whole frame. */
  lemma UnparsableLaunchRejected(t: Frame, parse: Parser, i: int)
    requires "launch_date" in Relabel(t, SnakeLabel).columns
    requires 0 <= i < |t.rows| && NoNull(t.rows[i])
    requires ToDate(Cell(Relabel(t, SnakeLabel), i, "launch_date"), Mixed, parse) == Null
    ensures TransformProductsData(t, parse) == Err(SchemaError)
  {
    var v := Relabel(t, SnakeLabel);
    ProductsProcessedOk(v, parse);
    ProductsAccepted(v, parse);
  }
}
